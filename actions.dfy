/**
 * The governance actions (actions.rs): proposing, staking a vote, resolving
 * a proposal once its stake reaches quorum (carrying out its action and
 * refunding every stake) and withdrawing a vote.
 *
 * Votes are stakes: a vote transfers its amount to the contract, and the
 * stakes stay there until the proposal is resolved or the vote withdrawn.
 * Each entry point is a method on the storage, specified by a function on
 * the stored value (`Propose`, `Vote`, `Complete`, `Withdraw`).
 */
module Actions {
  import opened Uint
  import opened Errors
  import opened Msg
  import opened State
  import Tokens

  /* ---------------------------------------------------------------------- */
  /* Proposing                                                               */
  /* ---------------------------------------------------------------------- */

  /**
   * `handle_propose`: the proposer pays the current proposal cost to the
   * contract, then a fresh Pending proposal is appended.
   */
  function Propose(w: World, contract: Addr, sender: Addr, msg: ProposeMsg): (r: Result<World>)
    ensures w.config.proposalCost == 0 ==> r == Err(InvalidZeroAmount)
    ensures r.Ok? <==> Tokens.Transfer(w.ledger, sender, contract, w.config.proposalCost).Ok?
    ensures r.Err? ==> r.error == Tokens.Transfer(w.ledger, sender, contract, w.config.proposalCost).error
    ensures r.Ok? ==>
      && r.value.ledger == Tokens.Transfer(w.ledger, sender, contract, w.config.proposalCost).value
      && r.value.config == w.config && r.value.items == w.items
      && |r.value.proposals| == |w.proposals| + 1
      && r.value.proposals[..|w.proposals|] == w.proposals
      && var p := r.value.proposals[|w.proposals|];
         && p.status == Pending && GetTotalVotes(p) == 0
         && p.proposer == sender && p.proposalCost == w.config.proposalCost
         && p.action == msg.action
  {
    var cost := w.config.proposalCost;
    var l1 :- Tokens.Transfer(w.ledger, sender, contract, cost);
    Ok(w.(ledger := l1, proposals := w.proposals + [NewProposal(msg, sender, cost)]))
  }

  /** `handle_propose`. */
  method HandlePropose(deps: Storage, contract: Addr, sender: Addr, proposal: ProposeMsg)
    returns (r: Result<Response>)
    modifies deps
    ensures r == Propose(old(deps.Snapshot()), contract, sender, proposal).Replace(Response([]))
    ensures deps.Snapshot() == Commit(old(deps.Snapshot()), Propose(old(deps.Snapshot()), contract, sender, proposal))
  {
    var cost := deps.state.proposalCost;
    var t := Tokens.ExecuteTransfer(deps, sender, contract, cost);
    if t.Err? {
      return Err(t.error);
    }
    deps.proposals := deps.proposals + [NewProposal(proposal, sender, cost)];
    return Ok(Response([]));
  }

  /* ---------------------------------------------------------------------- */
  /* Resolution                                                              */
  /* ---------------------------------------------------------------------- */

  /**
   * The resolution step of `handle_vote`: once the total stake reaches the
   * quorum the proposal passes if strictly more is staked on Yes than on
   * No, and fails otherwise (a tie fails); below quorum it stays Pending.
   */
  function Tally(p: Proposal, quorum: Uint128): (r: Proposal)
    requires p.status == Pending
    ensures r == p.(status := r.status)
    ensures r.status == Pending <==> GetTotalVotes(p) < quorum
    ensures r.status == Passed <==> GetTotalVotes(p) >= quorum && GetVotes(p, Yes) > GetVotes(p, No)
    ensures r.status == Failed <==> GetTotalVotes(p) >= quorum && GetVotes(p, Yes) <= GetVotes(p, No)
  {
    if GetTotalVotes(p) < quorum then p
    else if GetVotes(p, Yes) <= GetVotes(p, No) then p.(status := Failed)
    else p.(status := Passed)
  }

  /** `Vec::remove`: drops the element at `id`, shifting the rest down. */
  function RemoveAt<T>(s: seq<T>, id: nat): (r: seq<T>)
    requires id < |s|
    ensures |r| == |s| - 1
    ensures forall j :: 0 <= j < id ==> r[j] == s[j]
    ensures forall j :: id <= j < |r| ==> r[j] == s[j + 1]
  {
    s[..id] + s[id + 1..]
  }

  /**
   * The action of a resolved proposal. It is carried out whether the
   * proposal passed or failed; removing an item past the end panics.
   */
  function ApplyAction(w: World, action: ProposeAction): (r: Result<World>)
    ensures r.Err? <==> action.RemoveItem? && action.id >= |w.items|
    ensures r.Err? ==> r.error == Panicked(RemoveOutOfRange)
    ensures r.Ok? ==> r.value.ledger == w.ledger && r.value.proposals == w.proposals
    ensures action.ChangeQuorum? ==> r == Ok(w.(config := w.config.(quorum := action.newQuorum)))
    ensures action.ChangeProposalCost? ==>
      r == Ok(w.(config := w.config.(proposalCost := action.newProposalCost)))
    ensures action.AddItem? ==> r.Ok? && r.value.items == w.items + [action.item]
    ensures action.RemoveItem? && r.Ok? ==>
      r.value.config == w.config && |r.value.items| + 1 == |w.items|
    ensures action.RemoveItem? && r.Ok? ==> r.value.items == RemoveAt(w.items, action.id)
    ensures (action.AddItem? || action.RemoveItem?) && r.Ok? ==> r.value.config == w.config
  {
    match action
    case ChangeQuorum(q) => Ok(w.(config := w.config.(quorum := q)))
    case ChangeProposalCost(c) => Ok(w.(config := w.config.(proposalCost := c)))
    case AddItem(item) => Ok(w.(items := w.items + [item]))
    case RemoveItem(id) =>
      if id >= |w.items| then Err(Panicked(RemoveOutOfRange))
      else Ok(w.(items := RemoveAt(w.items, id)))
  }

  /** Every stake of a proposal, in refund order: Yes, then No, then Abstain. */
  function AllStakes(p: Proposal): seq<Stake> {
    p.yes + p.no + p.abstain
  }

  /** The refund loop of `handle_proposal_completion`: one transfer per stake, in order. */
  function Refunds(l: Ledger, contract: Addr, stakes: seq<Stake>): Result<Ledger> {
    if stakes == [] then Ok(l)
    else
      var l1 :- Refunds(l, contract, stakes[..|stakes| - 1]);
      var s := stakes[|stakes| - 1];
      Tokens.Transfer(l1, contract, s.voter, s.amount)
  }

  /**
   * `handle_proposal_completion` on a resolved proposal: carry out its
   * action, refund the proposer's cost, then refund every stake. The refunds
   * are ordinary transfers, so a zero stake makes the whole call fail.
   */
  function Complete(w: World, contract: Addr, p: Proposal): Result<World>
    requires p.status != Pending
  {
    var w1 :- ApplyAction(w, p.action);
    var l2 :- Tokens.Transfer(w1.ledger, contract, p.proposer, p.proposalCost);
    var l3 :- Refunds(l2, contract, AllStakes(p));
    Ok(w1.(ledger := l3))
  }

  /* ---------------------------------------------------------------------- */
  /* Voting                                                                  */
  /* ---------------------------------------------------------------------- */

  /**
   * `handle_vote`: the stake is transferred to the contract FIRST, so a zero
   * or unaffordable stake fails before the proposal is even looked up. Then
   * the proposal must exist and be Pending; the stake is recorded, the
   * proposal tallied against the quorum read at the start, and a resolved
   * proposal is completed in the same call.
   */
  function Vote(w: World, contract: Addr, sender: Addr, vote: VoteMsg): (r: Result<World>)
    ensures vote.amount == 0 ==> r == Err(InvalidZeroAmount)
    ensures vote.amount > 0 && Tokens.BalanceOf(w.ledger, sender) < vote.amount ==>
      r == Err(Overflow(Sub, Tokens.BalanceOf(w.ledger, sender), vote.amount))
    ensures Tokens.Transfer(w.ledger, sender, contract, vote.amount).Ok? && vote.proposalId >= |w.proposals| ==>
      r == Err(NotFound(ProposalId, vote.proposalId))
    ensures vote.proposalId < |w.proposals| && w.proposals[vote.proposalId].status != Pending ==> r.Err?
    ensures (&& Tokens.Transfer(w.ledger, sender, contract, vote.amount).Ok?
             && vote.proposalId < |w.proposals|
             && w.proposals[vote.proposalId].status != Pending) ==>
      r == Err(VoteOnCompletedProposal)
    ensures r.Ok? ==> Tokens.Transfer(w.ledger, sender, contract, vote.amount).Ok?
    ensures (&& Tokens.Transfer(w.ledger, sender, contract, vote.amount).Ok?
             && vote.proposalId < |w.proposals|
             && w.proposals[vote.proposalId].status == Pending) ==>
      var p1 := Tally(AddVote(w.proposals[vote.proposalId], sender, vote.position, vote.amount), w.config.quorum);
      var w1 := w.(ledger := Tokens.Transfer(w.ledger, sender, contract, vote.amount).value,
                   proposals := w.proposals[vote.proposalId := p1]);
      r == if p1.status != Pending then Complete(w1, contract, p1) else Ok(w1)
    ensures r.Ok? ==>
      && vote.proposalId < |w.proposals|
      && w.proposals[vote.proposalId].status == Pending
      && |r.value.proposals| == |w.proposals|
      && r.value.proposals[vote.proposalId] ==
           Tally(AddVote(w.proposals[vote.proposalId], sender, vote.position, vote.amount), w.config.quorum)
      && forall j :: 0 <= j < |w.proposals| && j != vote.proposalId ==> r.value.proposals[j] == w.proposals[j]
    ensures r.Ok? && r.value.proposals[vote.proposalId].status == Pending ==>
      && r.value.config == w.config && r.value.items == w.items
      && r.value.ledger == Tokens.Transfer(w.ledger, sender, contract, vote.amount).value
  {
    var quorum := w.config.quorum;
    var l1 :- Tokens.Transfer(w.ledger, sender, contract, vote.amount);
    if vote.proposalId >= |w.proposals| then Err(NotFound(ProposalId, vote.proposalId))
    else
      var p := w.proposals[vote.proposalId];
      if p.status != Pending then Err(VoteOnCompletedProposal)
      else
        var p1 := Tally(AddVote(p, sender, vote.position, vote.amount), quorum);
        var w1 := w.(ledger := l1, proposals := w.proposals[vote.proposalId := p1]);
        if p1.status != Pending then Complete(w1, contract, p1) else Ok(w1)
  }

  /** `handle_proposal_completion`. Its `assert!` is the precondition. */
  method HandleProposalCompletion(deps: Storage, contract: Addr, proposal: Proposal) returns (r: Result<()>)
    requires proposal.status != Pending
    modifies deps
    ensures r == Complete(old(deps.Snapshot()), contract, proposal).Replace(())
    ensures r.Ok? ==> deps.Snapshot() == Complete(old(deps.Snapshot()), contract, proposal).value
  {
    match proposal.action {
      case ChangeQuorum(q) =>
        deps.state := deps.state.(quorum := q);
      case ChangeProposalCost(c) =>
        deps.state := deps.state.(proposalCost := c);
      case AddItem(item) =>
        deps.items := deps.items + [item];
      case RemoveItem(id) =>
        if id >= |deps.items| {
          return Err(Panicked(RemoveOutOfRange));
        }
        deps.items := RemoveAt(deps.items, id);
    }
    ghost var w1 := deps.Snapshot();
    assert ApplyAction(old(deps.Snapshot()), proposal.action) == Ok(w1);
    var t := Tokens.ExecuteTransfer(deps, contract, proposal.proposer, proposal.proposalCost);
    if t.Err? {
      return Err(t.error);
    }
    r := RefundStakes(deps, contract, proposal.yes + proposal.no + proposal.abstain);
  }

  /** The refund loop of `handle_proposal_completion`: one transfer per stake, in order. */
  method RefundStakes(deps: Storage, contract: Addr, refunds: seq<Stake>) returns (r: Result<()>)
    modifies deps
    ensures r == Refunds(old(deps.Snapshot()).ledger, contract, refunds).Replace(())
    ensures r.Ok? ==> deps.Snapshot() == old(deps.Snapshot()).(ledger := Refunds(old(deps.Snapshot()).ledger, contract, refunds).value)
  {
    ghost var start := deps.Snapshot();
    for i := 0 to |refunds|
      invariant Refunds(start.ledger, contract, refunds[..i]) == Ok(deps.Snapshot().ledger)
      invariant deps.Snapshot() == start.(ledger := deps.Snapshot().ledger)
    {
      var stake := refunds[i];
      assert refunds[..i + 1][..i] == refunds[..i];
      var t := Tokens.ExecuteTransfer(deps, contract, stake.voter, stake.amount);
      if t.Err? {
        RefundsPrefixErr(start.ledger, contract, refunds, i + 1);
        return Err(t.error);
      }
    }
    assert refunds[..|refunds|] == refunds;
    return Ok(());
  }

  /**
   * `handle_vote`. The stake transfer and the proposal update are written
   * to storage as they happen; a later failure makes the host roll all of
   * them back.
   */
  method HandleVote(deps: Storage, contract: Addr, sender: Addr, vote: VoteMsg) returns (r: Result<Response>)
    modifies deps
    ensures r == Vote(old(deps.Snapshot()), contract, sender, vote).Replace(Response([]))
    ensures deps.Snapshot() == Commit(old(deps.Snapshot()), Vote(old(deps.Snapshot()), contract, sender, vote))
  {
    var saved := deps.Snapshot();
    var quorum := deps.state.quorum;
    var t := Tokens.ExecuteTransfer(deps, sender, contract, vote.amount);
    if t.Err? {
      return Err(t.error);
    }
    var id := vote.proposalId;
    if id >= |deps.proposals| {
      deps.Rollback(saved);
      return Err(NotFound(ProposalId, id));
    }
    var proposal := deps.proposals[id];
    if proposal.status != Pending {
      deps.Rollback(saved);
      return Err(VoteOnCompletedProposal);
    }
    proposal := AddVote(proposal, sender, vote.position, vote.amount);
    var staked := GetTotalVotes(proposal);
    if staked >= quorum {
      if GetVotes(proposal, Yes) <= GetVotes(proposal, No) {
        proposal := proposal.(status := Failed);
      } else {
        proposal := proposal.(status := Passed);
      }
    }
    deps.proposals := deps.proposals[id := proposal];
    if proposal.status != Pending {
      var c := HandleProposalCompletion(deps, contract, proposal);
      if c.Err? {
        deps.Rollback(saved);
        return Err(c.error);
      }
    }
    return Ok(Response([]));
  }

  /* ---------------------------------------------------------------------- */
  /* Withdrawing                                                             */
  /* ---------------------------------------------------------------------- */

  /** A stake list with every entry of `voter` set to zero (the entries stay). */
  function ZeroedFor(s: seq<Stake>, voter: Addr): seq<Stake> {
    seq(|s|, i requires 0 <= i < |s| => if s[i].voter == voter then Stake(voter, 0) else s[i])
  }

  /** The total `voter` has staked on a proposal, over all three positions. */
  function StakedBy(p: Proposal, voter: Addr): nat {
    StakeOf(p.yes, voter) + StakeOf(p.no, voter) + StakeOf(p.abstain, voter)
  }

  /** A proposal with all of `voter`'s stakes zeroed. */
  function ZeroVoter(p: Proposal, voter: Addr): Proposal {
    p.(yes := ZeroedFor(p.yes, voter), no := ZeroedFor(p.no, voter), abstain := ZeroedFor(p.abstain, voter))
  }

  /**
   * `handle_withdrawal`: the proposal must exist and be Pending; every
   * entry of the sender is zeroed and their sum (a `Uint128` addition that
   * panics on overflow) is transferred back from the contract, which fails
   * when the sender had nothing staked.
   */
  function Withdraw(w: World, contract: Addr, sender: Addr, msg: WithdrawVoteMsg): (r: Result<World>)
    ensures msg.proposalId >= |w.proposals| ==> r == Err(NotFound(ProposalId, msg.proposalId))
    ensures msg.proposalId < |w.proposals| && w.proposals[msg.proposalId].status != Pending ==>
      r == Err(VoteOnCompletedProposal)
    ensures (msg.proposalId < |w.proposals| && w.proposals[msg.proposalId].status == Pending &&
      StakedBy(w.proposals[msg.proposalId], sender) == 0) ==> r == Err(InvalidZeroAmount)
    ensures r.Ok? ==>
      && msg.proposalId < |w.proposals| && |r.value.proposals| == |w.proposals|
      && var p := w.proposals[msg.proposalId];
         var p1 := r.value.proposals[msg.proposalId];
         && p.status == Pending && StakedBy(p, sender) > 0
         && p1 == ZeroVoter(p, sender)
         && StakedBy(p, sender) < TWO_128
         && Tokens.Transfer(w.ledger, contract, sender, StakedBy(p, sender)).Ok?
         && r.value.ledger == Tokens.Transfer(w.ledger, contract, sender, StakedBy(p, sender)).value
         && r.value.config == w.config && r.value.items == w.items
         && forall j :: 0 <= j < |w.proposals| && j != msg.proposalId ==> r.value.proposals[j] == w.proposals[j]
  {
    var id := msg.proposalId;
    if id >= |w.proposals| then Err(NotFound(ProposalId, id))
    else
      var p := w.proposals[id];
      if p.status != Pending then Err(VoteOnCompletedProposal)
      else
        var withdrawn := StakedBy(p, sender);
        if withdrawn >= TWO_128 then Err(Panicked(AddOverflow))
        else
          var l1 :- Tokens.Transfer(w.ledger, contract, sender, withdrawn);
          Ok(w.(ledger := l1, proposals := w.proposals[id := ZeroVoter(p, sender)]))
  }

  /**
   * The withdrawal loop over one stake list: zeroes `voter`'s entries in
   * place and adds their amounts to `withdrawn`, panicking if the running
   * sum overflows.
   */
  method ZeroStakes(stakes: seq<Stake>, voter: Addr, withdrawn: Uint128)
    returns (r: Result<(seq<Stake>, Uint128)>)
    ensures withdrawn + StakeOf(stakes, voter) < TWO_128 ==>
      r == Ok((ZeroedFor(stakes, voter), withdrawn + StakeOf(stakes, voter)))
    ensures withdrawn + StakeOf(stakes, voter) >= TWO_128 ==> r == Err(Panicked(AddOverflow))
  {
    var s := stakes;
    var total: Uint128 := withdrawn;
    for i := 0 to |s|
      invariant |s| == |stakes|
      invariant forall j :: 0 <= j < i ==> s[j] == (if stakes[j].voter == voter then Stake(voter, 0) else stakes[j])
      invariant forall j :: i <= j < |s| ==> s[j] == stakes[j]
      invariant total == withdrawn + StakeOf(stakes[..i], voter)
    {
      assert stakes[..i + 1][..i] == stakes[..i];
      if s[i].voter == voter {
        if total + s[i].amount >= TWO_128 {
          StakeOfPrefix(stakes, voter, i + 1);
          return Err(Panicked(AddOverflow));
        }
        total := total + s[i].amount;
        s := s[i := Stake(voter, 0)];
      }
    }
    assert stakes[..|stakes|] == stakes;
    assert s == ZeroedFor(stakes, voter);
    return Ok((s, total));
  }

  /** `handle_withdrawal`. */
  method HandleWithdrawal(deps: Storage, contract: Addr, sender: Addr, msg: WithdrawVoteMsg)
    returns (r: Result<Response>)
    modifies deps
    ensures r == Withdraw(old(deps.Snapshot()), contract, sender, msg).Replace(Response([]))
    ensures deps.Snapshot() == Commit(old(deps.Snapshot()), Withdraw(old(deps.Snapshot()), contract, sender, msg))
  {
    var saved := deps.Snapshot();
    var id := msg.proposalId;
    if id >= |deps.proposals| {
      return Err(NotFound(ProposalId, id));
    }
    var proposal := deps.proposals[id];
    if proposal.status != Pending {
      return Err(VoteOnCompletedProposal);
    }
    ghost var p := proposal;
    var z := ZeroStakes(proposal.yes, sender, 0);
    if z.Err? {
      return Err(z.error);
    }
    proposal := proposal.(yes := z.value.0);
    z := ZeroStakes(proposal.no, sender, z.value.1);
    if z.Err? {
      return Err(z.error);
    }
    proposal := proposal.(no := z.value.0);
    z := ZeroStakes(proposal.abstain, sender, z.value.1);
    if z.Err? {
      return Err(z.error);
    }
    proposal := proposal.(abstain := z.value.0);
    var withdrawn := z.value.1;
    assert proposal == ZeroVoter(p, sender) && withdrawn == StakedBy(p, sender);
    deps.proposals := deps.proposals[id := proposal];
    r := Tokens.ExecuteTransfer(deps, contract, sender, withdrawn);
    if r.Err? {
      deps.Rollback(saved);
    }
  }

  /* ---------------------------------------------------------------------- */
  /* Properties                                                              */
  /* ---------------------------------------------------------------------- */

  lemma {:induction false} StakeOfPrefix(s: seq<Stake>, voter: Addr, k: nat)
    requires k <= |s|
    ensures StakeOf(s[..k], voter) <= StakeOf(s, voter)
    decreases |s|
  {
    if k < |s| {
      assert s[..k] == s[..|s| - 1][..k];
      StakeOfPrefix(s[..|s| - 1], voter, k);
    } else {
      assert s[..k] == s;
    }
  }

  /**
   * Zeroing a voter's entries takes exactly their stake off the list's sum
   * and leaves them nothing staked.
   */
  lemma {:induction false} ZeroedForSum(s: seq<Stake>, voter: Addr)
    ensures StakeSum(ZeroedFor(s, voter)) + StakeOf(s, voter) == StakeSum(s)
    ensures StakeOf(ZeroedFor(s, voter), voter) == 0
    decreases |s|
  {
    if s != [] {
      var init := s[..|s| - 1];
      assert ZeroedFor(s, voter)[..|s| - 1] == ZeroedFor(init, voter);
      ZeroedForSum(init, voter);
    }
  }

  /**
   * Zeroing a voter takes exactly their stake off the proposal's total and
   * leaves them nothing staked; nothing else about the proposal changes.
   */
  lemma ZeroVoterTotals(p: Proposal, voter: Addr)
    ensures StakedBy(ZeroVoter(p, voter), voter) == 0
    ensures GetTotalVotes(ZeroVoter(p, voter)) + StakedBy(p, voter) == GetTotalVotes(p)
    ensures ZeroVoter(p, voter).status == p.status && ZeroVoter(p, voter).action == p.action
    ensures ZeroVoter(p, voter).proposer == p.proposer && ZeroVoter(p, voter).proposalCost == p.proposalCost
  {
    ZeroedForSum(p.yes, voter);
    ZeroedForSum(p.no, voter);
    ZeroedForSum(p.abstain, voter);
  }

  /** Once a withdrawal succeeds, withdrawing again from the same proposal fails. */
  lemma WithdrawTwice(w: World, contract: Addr, sender: Addr, msg: WithdrawVoteMsg)
    requires Withdraw(w, contract, sender, msg).Ok?
    ensures Withdraw(Withdraw(w, contract, sender, msg).value, contract, sender, msg) == Err(InvalidZeroAmount)
  {
    ZeroVoterTotals(w.proposals[msg.proposalId], sender);
  }

  lemma {:induction false} RefundsPrefixErr(l: Ledger, contract: Addr, stakes: seq<Stake>, k: nat)
    requires k <= |stakes|
    requires Refunds(l, contract, stakes[..k]).Err?
    ensures Refunds(l, contract, stakes) == Refunds(l, contract, stakes[..k])
    decreases |stakes|
  {
    if k < |stakes| {
      assert stakes[..k] == stakes[..|stakes| - 1][..k];
      RefundsPrefixErr(l, contract, stakes[..|stakes| - 1], k);
    } else {
      assert stakes[..k] == stakes;
    }
  }

  /** Every refund is a transfer, so the refunds succeed only if every stake is positive. */
  lemma {:induction false} RefundsNeedPositive(l: Ledger, contract: Addr, stakes: seq<Stake>)
    requires Refunds(l, contract, stakes).Ok?
    ensures forall i :: 0 <= i < |stakes| ==> stakes[i].amount > 0
    decreases |stakes|
  {
    if stakes != [] {
      RefundsNeedPositive(l, contract, stakes[..|stakes| - 1]);
      assert forall i :: 0 <= i < |stakes| - 1 ==> stakes[i] == stakes[..|stakes| - 1][i];
    }
  }

  /**
   * What the refunds do: every address other than the contract gets back
   * exactly what it staked in the list, the contract pays out the rest, and
   * the token metadata does not change.
   */
  lemma {:induction false} RefundsEffect(l: Ledger, contract: Addr, stakes: seq<Stake>, a: Addr)
    requires Refunds(l, contract, stakes).Ok?
    ensures a != contract ==>
      Tokens.BalanceOf(Refunds(l, contract, stakes).value, a) == Tokens.BalanceOf(l, a) + StakeOf(stakes, a)
    ensures Tokens.BalanceOf(Refunds(l, contract, stakes).value, contract) + StakeSum(stakes) ==
      Tokens.BalanceOf(l, contract) + StakeOf(stakes, contract)
    ensures Refunds(l, contract, stakes).value.info == l.info
    decreases |stakes|
  {
    if stakes != [] {
      RefundsEffect(l, contract, stakes[..|stakes| - 1], a);
      RefundsEffect(l, contract, stakes[..|stakes| - 1], contract);
    }
  }

  /** The refunds create and destroy no tokens. */
  lemma {:induction false} RefundsConserve(l: Ledger, contract: Addr, stakes: seq<Stake>)
    requires Refunds(l, contract, stakes).Ok?
    ensures Tokens.Total(Refunds(l, contract, stakes).value.balances) == Tokens.Total(l.balances)
    decreases |stakes|
  {
    if stakes != [] {
      var init := stakes[..|stakes| - 1];
      var s := stakes[|stakes| - 1];
      RefundsConserve(l, contract, init);
      Tokens.TransferConserves(Refunds(l, contract, init).value, contract, s.voter, s.amount);
    }
  }

  /**
   * The refunds cannot fail in a consistent ledger when every stake is
   * positive, no stake is the contract's own and the contract holds at
   * least their sum.
   */
  lemma {:induction false} RefundsSucceed(l: Ledger, contract: Addr, stakes: seq<Stake>)
    requires Tokens.Consistent(l)
    requires forall i :: 0 <= i < |stakes| ==> stakes[i].amount > 0 && stakes[i].voter != contract
    requires StakeSum(stakes) <= Tokens.BalanceOf(l, contract)
    ensures Refunds(l, contract, stakes).Ok?
    decreases |stakes|
  {
    if stakes != [] {
      var init := stakes[..|stakes| - 1];
      var s := stakes[|stakes| - 1];
      assert forall i :: 0 <= i < |init| ==> init[i] == stakes[i];
      RefundsSucceed(l, contract, init);
      var l1 := Refunds(l, contract, init).value;
      RefundsConserve(l, contract, init);
      RefundsEffect(l, contract, init, contract);
      StakeOfNone(init, contract);
      Tokens.ConsistentTransfer(l1, contract, s.voter, s.amount);
    }
  }

  lemma {:induction false} StakeOfNone(s: seq<Stake>, voter: Addr)
    requires forall i :: 0 <= i < |s| ==> s[i].voter != voter
    ensures StakeOf(s, voter) == 0
    decreases |s|
  {
    if s != [] {
      StakeOfNone(s[..|s| - 1], voter);
    }
  }

  /**
   * A withdrawn vote leaves a zero stake behind. While it is there, any vote
   * that would resolve the proposal fails, because the zero refund is
   * rejected: the proposal cannot be resolved at all.
   */
  lemma ZeroStakeBlocksResolution(w: World, contract: Addr, sender: Addr, vote: VoteMsg, i: nat)
    requires vote.proposalId < |w.proposals|
    requires i < |AllStakes(w.proposals[vote.proposalId])|
    requires AllStakes(w.proposals[vote.proposalId])[i].amount == 0
    requires w.proposals[vote.proposalId].status == Pending
    requires GetTotalVotes(w.proposals[vote.proposalId]) + vote.amount >= w.config.quorum
    ensures Vote(w, contract, sender, vote).Err?
  {
    var p := w.proposals[vote.proposalId];
    var p1 := Tally(AddVote(p, sender, vote.position, vote.amount), w.config.quorum);
    if Vote(w, contract, sender, vote).Ok? {
      var l1 := Tokens.Transfer(w.ledger, sender, contract, vote.amount).value;
      var w1 := w.(ledger := l1, proposals := w.proposals[vote.proposalId := p1]);
      var wa := ApplyAction(w1, p1.action).value;
      var l2 := Tokens.Transfer(wa.ledger, contract, p1.proposer, p1.proposalCost).value;
      assert Refunds(l2, contract, AllStakes(p1)).Ok?;
      StakeSurvivesVote(p, sender, vote.position, vote.amount, i);
      assert AllStakes(p)[i] in AllStakes(p1);
      RefundsNeedPositive(l2, contract, AllStakes(p1));
    }
  }

  /**
   * What completing a proposal pays out: the proposer gets the cost back,
   * every voter exactly what they staked, and the contract pays for all of
   * it; no tokens are created or destroyed and no proposal changes.
   */
  lemma CompleteRefunds(w: World, contract: Addr, p: Proposal, a: Addr)
    requires p.status != Pending
    requires Complete(w, contract, p).Ok?
    ensures a != contract ==>
      Tokens.BalanceOf(Complete(w, contract, p).value.ledger, a) ==
        Tokens.BalanceOf(w.ledger, a) + (if a == p.proposer then p.proposalCost else 0) + StakeOf(AllStakes(p), a)
    ensures p.proposer != contract ==>
      Tokens.BalanceOf(Complete(w, contract, p).value.ledger, contract) + p.proposalCost + StakeSum(AllStakes(p)) ==
        Tokens.BalanceOf(w.ledger, contract) + StakeOf(AllStakes(p), contract)
    ensures Tokens.Total(Complete(w, contract, p).value.ledger.balances) == Tokens.Total(w.ledger.balances)
    ensures Complete(w, contract, p).value.ledger.info == w.ledger.info
    ensures Complete(w, contract, p).value.proposals == w.proposals
  {
    var w1 := ApplyAction(w, p.action).value;
    var l2 := Tokens.Transfer(w1.ledger, contract, p.proposer, p.proposalCost).value;
    Tokens.TransferConserves(w1.ledger, contract, p.proposer, p.proposalCost);
    RefundsEffect(l2, contract, AllStakes(p), a);
    RefundsEffect(l2, contract, AllStakes(p), contract);
    RefundsConserve(l2, contract, AllStakes(p));
  }

  /** A vote only adds a stake: every earlier stake is still among the proposal's stakes. */
  lemma StakeSurvivesVote(p: Proposal, voter: Addr, position: VotePosition, amount: Uint128, i: nat)
    requires i < |AllStakes(p)|
    ensures AllStakes(p)[i] in AllStakes(AddVote(p, voter, position, amount))
  {
  }
}
