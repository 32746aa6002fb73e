/**
 * Whole-contract properties: the invariant every successful call keeps
 * (the balances add up to the supply, and the contract holds every
 * proposal cost and stake it owes back), what instantiation establishes,
 * the finality of resolved proposals, and when a resolving vote succeeds.
 */
module Invariants {
  import opened Uint
  import opened Errors
  import opened Msg
  import opened State
  import Tokens
  import Actions
  import Contract

  /**
   * What a proposal keeps locked in the contract: while Pending, the
   * proposer's cost and every stake; once resolved, nothing (it was all
   * refunded on completion).
   */
  function LockedIn(p: Proposal): nat {
    if p.status == Pending then p.proposalCost + GetTotalVotes(p) else 0
  }

  /** The total the contract owes back across all proposals. */
  function Locked(ps: seq<Proposal>): nat {
    if ps == [] then 0 else Locked(ps[..|ps| - 1]) + LockedIn(ps[|ps| - 1])
  }

  /** No stake in the list is the contract's own. */
  predicate NoVoter(s: seq<Stake>, contract: Addr) {
    forall i :: 0 <= i < |s| ==> s[i].voter != contract
  }

  /** The contract is neither the proposer nor a voter, and the locked cost is positive. */
  predicate Parties(p: Proposal, contract: Addr) {
    && p.proposer != contract
    && p.proposalCost > 0
    && NoVoter(p.yes, contract) && NoVoter(p.no, contract) && NoVoter(p.abstain, contract)
  }

  /** The contract invariant. */
  ghost predicate Inv(w: World, contract: Addr) {
    && Tokens.Consistent(w.ledger)
    && (forall j :: 0 <= j < |w.proposals| ==> Parties(w.proposals[j], contract))
    && Locked(w.proposals) <= Tokens.BalanceOf(w.ledger, contract)
  }

  /* ---------------------------------------------------------------------- */
  /* Helpers about the locked total and the stake lists                      */
  /* ---------------------------------------------------------------------- */

  lemma LockedAppend(ps: seq<Proposal>, p: Proposal)
    ensures Locked(ps + [p]) == Locked(ps) + LockedIn(p)
  {
  }

  /** Replacing one proposal changes the locked total by the difference. */
  lemma {:induction false} LockedUpdate(ps: seq<Proposal>, j: nat, p: Proposal)
    requires j < |ps|
    ensures Locked(ps[j := p]) + LockedIn(ps[j]) == Locked(ps) + LockedIn(p)
    decreases |ps|
  {
    var n := |ps| - 1;
    if j < n {
      assert ps[j := p][..n] == ps[..n][j := p];
      LockedUpdate(ps[..n], j, p);
    } else {
      assert ps[j := p][..n] == ps[..n];
    }
  }

  lemma {:induction false} StakeSumConcat(a: seq<Stake>, b: seq<Stake>)
    ensures StakeSum(a + b) == StakeSum(a) + StakeSum(b)
    decreases |b|
  {
    if b != [] {
      assert (a + b)[..|a + b| - 1] == a + b[..|b| - 1];
      StakeSumConcat(a, b[..|b| - 1]);
    } else {
      assert a + b == a;
    }
  }

  /** Refunding every stake pays out exactly the proposal's total vote. */
  lemma AllStakesSum(p: Proposal)
    ensures StakeSum(Actions.AllStakes(p)) == GetTotalVotes(p)
  {
    StakeSumConcat(p.yes, p.no);
    StakeSumConcat(p.yes + p.no, p.abstain);
  }

  lemma AllStakesVoters(p: Proposal, contract: Addr)
    requires Parties(p, contract)
    ensures forall i :: 0 <= i < |Actions.AllStakes(p)| ==> Actions.AllStakes(p)[i].voter != contract
  {
  }

  lemma AddVoteParties(p: Proposal, voter: Addr, position: VotePosition, amount: Uint128, contract: Addr)
    requires Parties(p, contract) && voter != contract
    ensures Parties(AddVote(p, voter, position, amount), contract)
  {
  }

  lemma ZeroVoterParties(p: Proposal, voter: Addr, contract: Addr)
    requires Parties(p, contract)
    ensures Parties(Actions.ZeroVoter(p, voter), contract)
  {
  }

  /* ---------------------------------------------------------------------- */
  /* Instantiation                                                           */
  /* ---------------------------------------------------------------------- */

  /**
   * Instantiating empty storage with every initial address listed once
   * establishes the invariant: the balances add up to the inferred supply,
   * and there is nothing to owe back yet.
   */
  lemma InstantiateEstablishesInv(w: World, msg: InstantiateMsg, contract: Addr)
    requires w.ledger.balances == map[]
    requires Tokens.DistinctAddresses(msg.tokenInfo.initialBalances)
    requires Contract.Instantiation(w, msg).Ok?
    ensures Inv(Contract.Instantiation(w, msg).value, contract)
  {
    var rows := msg.tokenInfo.initialBalances;
    Tokens.OpenAccountsSupply(map[], rows);
    Tokens.OpenAccountsDistinct(rows);
  }

  /* ---------------------------------------------------------------------- */
  /* Preservation                                                            */
  /* ---------------------------------------------------------------------- */

  lemma TransferPreservesInv(w: World, contract: Addr, sender: Addr, recipient: Addr, amount: Uint128)
    requires Inv(w, contract) && sender != contract
    requires Tokens.Transfer(w.ledger, sender, recipient, amount).Ok?
    ensures Inv(w.(ledger := Tokens.Transfer(w.ledger, sender, recipient, amount).value), contract)
  {
    Tokens.TransferConserves(w.ledger, sender, recipient, amount);
  }

  lemma BurnPreservesInv(w: World, contract: Addr, sender: Addr, amount: Uint128)
    requires Inv(w, contract) && sender != contract
    requires Tokens.Burn(w.ledger, sender, amount).Ok?
    ensures Inv(w.(ledger := Tokens.Burn(w.ledger, sender, amount).value), contract)
  {
    Tokens.BurnConserves(w.ledger, sender, amount);
  }

  lemma ProposePreservesInv(w: World, contract: Addr, sender: Addr, msg: ProposeMsg)
    requires Inv(w, contract) && sender != contract
    requires Actions.Propose(w, contract, sender, msg).Ok?
    ensures Inv(Actions.Propose(w, contract, sender, msg).value, contract)
    ensures var w1 := Actions.Propose(w, contract, sender, msg).value;
      && Tokens.BalanceOf(w1.ledger, contract) == Tokens.BalanceOf(w.ledger, contract) + w.config.proposalCost
      && Locked(w1.proposals) == Locked(w.proposals) + w.config.proposalCost
  {
    var cost := w.config.proposalCost;
    Tokens.TransferConserves(w.ledger, sender, contract, cost);
    LockedAppend(w.proposals, NewProposal(msg, sender, cost));
  }

  lemma WithdrawPreservesInv(w: World, contract: Addr, sender: Addr, msg: WithdrawVoteMsg)
    requires Inv(w, contract) && sender != contract
    requires Actions.Withdraw(w, contract, sender, msg).Ok?
    ensures Inv(Actions.Withdraw(w, contract, sender, msg).value, contract)
    ensures msg.proposalId < |w.proposals|
    ensures var w1 := Actions.Withdraw(w, contract, sender, msg).value;
      var staked := Actions.StakedBy(w.proposals[msg.proposalId], sender);
      && Tokens.BalanceOf(w1.ledger, contract) + staked == Tokens.BalanceOf(w.ledger, contract)
      && Locked(w1.proposals) + staked == Locked(w.proposals)
  {
    var p := w.proposals[msg.proposalId];
    var p1 := Actions.ZeroVoter(p, sender);
    var withdrawn := Actions.StakedBy(p, sender);
    Tokens.TransferConserves(w.ledger, contract, sender, withdrawn);
    Actions.ZeroVoterTotals(p, sender);
    ZeroVoterParties(p, sender, contract);
    LockedUpdate(w.proposals, msg.proposalId, p1);
  }

  lemma VotePreservesInv(w: World, contract: Addr, sender: Addr, vote: VoteMsg)
    requires Inv(w, contract) && sender != contract
    requires Actions.Vote(w, contract, sender, vote).Ok?
    ensures Inv(Actions.Vote(w, contract, sender, vote).value, contract)
  {
    var id := vote.proposalId;
    var p := w.proposals[id];
    var l1 := Tokens.Transfer(w.ledger, sender, contract, vote.amount).value;
    Tokens.TransferConserves(w.ledger, sender, contract, vote.amount);
    var q := AddVote(p, sender, vote.position, vote.amount);
    var p1 := Actions.Tally(q, w.config.quorum);
    var w1 := w.(ledger := l1, proposals := w.proposals[id := p1]);
    AddVoteParties(p, sender, vote.position, vote.amount, contract);
    LockedUpdate(w.proposals, id, p1);
    assert forall j :: 0 <= j < |w1.proposals| ==> Parties(w1.proposals[j], contract);
    assert Tokens.BalanceOf(l1, contract) == Tokens.BalanceOf(w.ledger, contract) + vote.amount;
    if p1.status != Pending {
      CompletionPreservesInv(w1, contract, p1);
    }
  }

  /**
   * Completing a resolved proposal keeps the invariant: the contract pays
   * out exactly what the proposal had locked.
   */
  lemma CompletionPreservesInv(w: World, contract: Addr, p: Proposal)
    requires p.status != Pending
    requires Tokens.Consistent(w.ledger) && Parties(p, contract)
    requires forall j :: 0 <= j < |w.proposals| ==> Parties(w.proposals[j], contract)
    requires Locked(w.proposals) + p.proposalCost + GetTotalVotes(p) <= Tokens.BalanceOf(w.ledger, contract)
    requires Actions.Complete(w, contract, p).Ok?
    ensures Inv(Actions.Complete(w, contract, p).value, contract)
  {
    AllStakesSum(p);
    AllStakesVoters(p, contract);
    Actions.StakeOfNone(Actions.AllStakes(p), contract);
    Actions.CompleteRefunds(w, contract, p, contract);
  }

  /**
   * Every successful call by anyone other than the contract itself keeps
   * the invariant (a failed call keeps the old storage).
   */
  lemma DispatchPreservesInv(w: World, contract: Addr, sender: Addr, msg: ExecuteMsg)
    requires Inv(w, contract) && sender != contract
    ensures Inv(Commit(w, Contract.Dispatch(w, contract, sender, msg)), contract)
  {
    if Contract.Dispatch(w, contract, sender, msg).Ok? {
      match msg
      case Withdraw(withdraw) => WithdrawPreservesInv(w, contract, sender, withdraw);
      case Transfer(recipient, amount) => TransferPreservesInv(w, contract, sender, recipient, amount);
      case Burn(amount) => BurnPreservesInv(w, contract, sender, amount);
      case Send(recipient, amount, _) => TransferPreservesInv(w, contract, sender, recipient, amount);
      case Propose(propose) => ProposePreservesInv(w, contract, sender, propose);
      case Vote(vote) => VotePreservesInv(w, contract, sender, vote);
    }
  }

  /* ---------------------------------------------------------------------- */
  /* Finality and resolution                                                 */
  /* ---------------------------------------------------------------------- */

  /**
   * Proposals are never removed, their title, body, action, proposer and
   * cost never change, and a resolved proposal never changes at all.
   */
  lemma ResolvedIsFinal(w: World, contract: Addr, sender: Addr, msg: ExecuteMsg, j: nat)
    requires j < |w.proposals|
    requires Contract.Dispatch(w, contract, sender, msg).Ok?
    ensures var ps := Contract.Dispatch(w, contract, sender, msg).value.proposals;
      && j < |ps|
      && ps[j].title == w.proposals[j].title && ps[j].body == w.proposals[j].body
      && ps[j].action == w.proposals[j].action
      && ps[j].proposer == w.proposals[j].proposer && ps[j].proposalCost == w.proposals[j].proposalCost
      && (w.proposals[j].status != Pending ==> ps[j] == w.proposals[j])
  {
  }

  /**
   * Under the invariant, a vote that resolves a proposal succeeds as long as
   * the voter can afford a positive stake, every earlier stake is positive
   * (no vote was withdrawn) and the action is one that can be carried out.
   * `Actions.ZeroStakeBlocksResolution` is the converse for the stakes.
   */
  lemma ResolvingVoteSucceeds(w: World, contract: Addr, sender: Addr, vote: VoteMsg)
    requires Inv(w, contract) && sender != contract
    requires vote.proposalId < |w.proposals|
    requires w.proposals[vote.proposalId].status == Pending
    requires 0 < vote.amount <= Tokens.BalanceOf(w.ledger, sender)
    requires forall i :: 0 <= i < |Actions.AllStakes(w.proposals[vote.proposalId])| ==>
      Actions.AllStakes(w.proposals[vote.proposalId])[i].amount > 0
    requires !(w.proposals[vote.proposalId].action.RemoveItem? &&
               w.proposals[vote.proposalId].action.id >= |w.items|)
    ensures Actions.Vote(w, contract, sender, vote).Ok?
  {
    var id := vote.proposalId;
    var p := w.proposals[id];
    assert Parties(p, contract);
    Tokens.ConsistentTransfer(w.ledger, sender, contract, vote.amount);
    var l1 := Tokens.Transfer(w.ledger, sender, contract, vote.amount).value;
    Tokens.TransferConserves(w.ledger, sender, contract, vote.amount);
    var q := AddVote(p, sender, vote.position, vote.amount);
    var p1 := Actions.Tally(q, w.config.quorum);
    var w1 := w.(ledger := l1, proposals := w.proposals[id := p1]);
    if p1.status != Pending {
      LockedUpdate(w.proposals, id, p.(status := Failed));
      assert LockedIn(p) <= Tokens.BalanceOf(w.ledger, contract);
      assert Tokens.BalanceOf(l1, contract) == Tokens.BalanceOf(w.ledger, contract) + vote.amount;
      assert p1.proposalCost + GetTotalVotes(p1) <= Tokens.BalanceOf(w1.ledger, contract);
      AddVoteParties(p, sender, vote.position, vote.amount, contract);
      assert Parties(p1, contract);
      PositiveAfterVote(p, sender, vote.position, vote.amount);
      assert Actions.AllStakes(p1) == Actions.AllStakes(q);
      assert !(p1.action.RemoveItem? && p1.action.id >= |w1.items|);
      CompletionSucceeds(w1, contract, p1);
    }
  }

  /**
   * Completing a resolved proposal succeeds in a consistent ledger when the
   * contract holds its cost and stakes, neither proposer nor voters are the
   * contract, every stake is positive and the action can be carried out.
   */
  lemma CompletionSucceeds(w: World, contract: Addr, p: Proposal)
    requires p.status != Pending
    requires Tokens.Consistent(w.ledger) && Parties(p, contract)
    requires p.proposalCost + GetTotalVotes(p) <= Tokens.BalanceOf(w.ledger, contract)
    requires forall i :: 0 <= i < |Actions.AllStakes(p)| ==> Actions.AllStakes(p)[i].amount > 0
    requires !(p.action.RemoveItem? && p.action.id >= |w.items|)
    ensures Actions.Complete(w, contract, p).Ok?
  {
    var wa := Actions.ApplyAction(w, p.action).value;
    Tokens.ConsistentTransfer(wa.ledger, contract, p.proposer, p.proposalCost);
    var l2 := Tokens.Transfer(wa.ledger, contract, p.proposer, p.proposalCost).value;
    Tokens.TransferConserves(wa.ledger, contract, p.proposer, p.proposalCost);
    AllStakesSum(p);
    AllStakesVoters(p, contract);
    Actions.RefundsSucceed(l2, contract, Actions.AllStakes(p));
  }

  /** A positive vote keeps every stake of a proposal positive. */
  lemma PositiveAfterVote(p: Proposal, voter: Addr, position: VotePosition, amount: Uint128)
    requires amount > 0
    requires forall i :: 0 <= i < |Actions.AllStakes(p)| ==> Actions.AllStakes(p)[i].amount > 0
    ensures forall i :: 0 <= i < |Actions.AllStakes(AddVote(p, voter, position, amount))| ==>
      Actions.AllStakes(AddVote(p, voter, position, amount))[i].amount > 0
  {
    var q := AddVote(p, voter, position, amount);
    var s := Actions.AllStakes(q);
    forall i | 0 <= i < |s|
      ensures s[i].amount > 0
    {
      var t := s[i];
      assert t in q.yes || t in q.no || t in q.abstain;
      if t != Stake(voter, amount) {
        assert t in p.yes || t in p.no || t in p.abstain;
        assert t in Actions.AllStakes(p);
      }
    }
  }
}
