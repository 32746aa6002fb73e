/**
 * The older notify-and-decode variant (receive.rs). Tokens reach this
 * contract through a cw20 send; the notification carries the amount and an
 * encoded `TokenMsg`. A proposal needs at least the proposal cost; a vote
 * adds the amount to one running tally and resolves the proposal whenever
 * the tallies reach quorum. Votes on resolved proposals are still counted
 * and can flip the outcome, and nothing is ever refunded.
 *
 * Decoding the payload is a parameter: `decode` returns `None` for a
 * payload that does not parse.
 */
module Receive {
  import opened Uint
  import opened Errors
  import opened Msg
  import opened State

  /** The proposal branch: the attached amount must cover the proposal cost. */
  function LegacyPropose(w: LegacyWorld, amount: Uint128, msg: ProposeMsg): (r: Result<LegacyWorld>)
    ensures r.Ok? <==> amount >= w.state.proposalCost
    ensures r.Err? ==> r.error == InsufficentProposalFunds(w.state.proposalCost, amount)
    ensures r.Ok? ==>
      && r.value.state == w.state
      && |r.value.proposals| == |w.proposals| + 1
      && r.value.proposals[..|w.proposals|] == w.proposals
      && var p := r.value.proposals[|w.proposals|];
         p.status == Pending && p.yes == 0 && p.no == 0 && p.abstain == 0 && p.action == msg.action
  {
    if amount < w.state.proposalCost then Err(InsufficentProposalFunds(w.state.proposalCost, amount))
    else Ok(w.(proposals := w.proposals + [FromProposeMsg(msg)]))
  }

  /** The tally of one position. */
  function TallyOf(p: LegacyProposal, position: VotePosition): Uint128 {
    match position
    case Yes => p.yes
    case No => p.no
    case Abstain => p.abstain
  }

  /**
   * A vote on one proposal: add the amount to the position's tally, sum the
   * three tallies (each `Uint128` addition panics on overflow) and, at or
   * above quorum, set the status from Yes against No, ties failing. The
   * status is recomputed even for a proposal already resolved.
   */
  function LegacyTally(p: LegacyProposal, position: VotePosition, amount: Uint128, quorum: Uint128)
    : (r: Result<LegacyProposal>)
    ensures r.Ok? <==>
      TallyOf(p, position) + amount < TWO_128 && p.yes + p.no + p.abstain + amount < TWO_128
    ensures r.Ok? ==>
      && TallyOf(r.value, position) == TallyOf(p, position) + amount
      && (forall q :: q != position ==> TallyOf(r.value, q) == TallyOf(p, q))
      && r.value.title == p.title && r.value.body == p.body && r.value.action == p.action
    ensures r.Ok? ==>
      var staked := r.value.yes + r.value.no + r.value.abstain;
      && (staked < quorum ==> r.value.status == p.status)
      && (staked >= quorum ==> (r.value.status == Passed <==> r.value.yes > r.value.no))
      && (staked >= quorum ==> r.value.status != Pending)
  {
    var tallied :-
      match position
      case Yes => if p.yes + amount >= TWO_128 then Err(Panicked(AddOverflow)) else Ok(p.(yes := p.yes + amount))
      case No => if p.no + amount >= TWO_128 then Err(Panicked(AddOverflow)) else Ok(p.(no := p.no + amount))
      case Abstain =>
        if p.abstain + amount >= TWO_128 then Err(Panicked(AddOverflow)) else Ok(p.(abstain := p.abstain + amount));
    var staked := tallied.yes + tallied.no + tallied.abstain;
    if staked >= TWO_128 then Err(Panicked(AddOverflow))
    else if staked < quorum then Ok(tallied)
    else if tallied.yes <= tallied.no then Ok(tallied.(status := Failed))
    else Ok(tallied.(status := Passed))
  }

  /** The vote branch: the proposal must exist; then `LegacyTally` against the stored quorum. */
  function LegacyVote(w: LegacyWorld, amount: Uint128, vote: LegacyVoteMsg): (r: Result<LegacyWorld>)
    ensures vote.proposalId >= |w.proposals| ==> r == Err(NotFound(ProposalId, vote.proposalId))
    ensures r.Ok? ==>
      && vote.proposalId < |w.proposals|
      && r.value.state == w.state
      && |r.value.proposals| == |w.proposals|
      && Ok(r.value.proposals[vote.proposalId]) ==
           LegacyTally(w.proposals[vote.proposalId], vote.position, amount, w.state.quorum)
      && forall j :: 0 <= j < |w.proposals| && j != vote.proposalId ==> r.value.proposals[j] == w.proposals[j]
  {
    if vote.proposalId >= |w.proposals| then Err(NotFound(ProposalId, vote.proposalId))
    else
      var p1 :- LegacyTally(w.proposals[vote.proposalId], vote.position, amount, w.state.quorum);
      Ok(w.(proposals := w.proposals[vote.proposalId := p1]))
  }

  /** `handle_receive`: decode the payload, then propose or vote. */
  function Receive(w: LegacyWorld, msg: Cw20ReceiveMsg, decode: Binary -> Option<TokenMsg>): (r: Result<LegacyWorld>)
    ensures decode(msg.msg).None? ==> r == Err(ParseErr)
    ensures r.Ok? ==> r.value.state == w.state && |r.value.proposals| >= |w.proposals|
  {
    match decode(msg.msg)
    case None => Err(ParseErr)
    case Some(TokenPropose(p)) => LegacyPropose(w, msg.amount, p)
    case Some(TokenVote(vote)) => LegacyVote(w, msg.amount, vote)
  }

  /** `handle_receive`, updating the stored proposals in place. */
  method HandleReceive(deps: LegacyStorage, msg: Cw20ReceiveMsg, decode: Binary -> Option<TokenMsg>)
    returns (r: Result<Response>)
    modifies deps
    ensures r == Receive(old(deps.Snapshot()), msg, decode).Replace(Response([]))
    ensures deps.Snapshot() == Commit(old(deps.Snapshot()), Receive(old(deps.Snapshot()), msg, decode))
  {
    var amount := msg.amount;
    var decoded := decode(msg.msg);
    if decoded.None? {
      return Err(ParseErr);
    }
    match decoded.value {
      case TokenPropose(p) =>
        var state := deps.state;
        if amount < state.proposalCost {
          return Err(InsufficentProposalFunds(state.proposalCost, amount));
        }
        deps.proposals := deps.proposals + [FromProposeMsg(p)];
        return Ok(Response([]));
      case TokenVote(vote) =>
        var state := deps.state;
        var id := vote.proposalId;
        if id >= |deps.proposals| {
          return Err(NotFound(ProposalId, id));
        }
        var proposal := deps.proposals[id];
        match vote.position {
          case Yes =>
            if proposal.yes + amount >= TWO_128 {
              return Err(Panicked(AddOverflow));
            }
            proposal := proposal.(yes := proposal.yes + amount);
          case No =>
            if proposal.no + amount >= TWO_128 {
              return Err(Panicked(AddOverflow));
            }
            proposal := proposal.(no := proposal.no + amount);
          case Abstain =>
            if proposal.abstain + amount >= TWO_128 {
              return Err(Panicked(AddOverflow));
            }
            proposal := proposal.(abstain := proposal.abstain + amount);
        }
        if proposal.yes + proposal.no + proposal.abstain >= TWO_128 {
          return Err(Panicked(AddOverflow));
        }
        var staked: Uint128 := proposal.yes + proposal.no + proposal.abstain;
        if staked >= state.quorum {
          if proposal.yes <= proposal.no {
            proposal := proposal.(status := Failed);
          } else {
            proposal := proposal.(status := Passed);
          }
        }
        deps.proposals := deps.proposals[id := proposal];
        return Ok(Response([]));
    }
  }

  /**
   * Votes on a resolved proposal still count: a large enough No vote turns
   * a Passed proposal into a Failed one.
   */
  lemma PassedCanFlip(w: LegacyWorld, amount: Uint128, vote: LegacyVoteMsg)
    requires vote.proposalId < |w.proposals| && vote.position == No
    requires w.proposals[vote.proposalId].status == Passed
    requires LegacyVote(w, amount, vote).Ok?
    requires w.proposals[vote.proposalId].no + amount >= w.proposals[vote.proposalId].yes
    requires w.proposals[vote.proposalId].yes + w.proposals[vote.proposalId].no + w.proposals[vote.proposalId].abstain >= w.state.quorum
    ensures LegacyVote(w, amount, vote).value.proposals[vote.proposalId].status == Failed
  {
  }
}
