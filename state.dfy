/**
 * Persistent state of the contract (state.rs): the configuration, proposals
 * with their per-position stake lists, token metadata and the storage that
 * holds them. The helpers `NewProposal`, `AddVote`, `GetVotes` and
 * `GetTotalVotes` are the ones actions.rs calls on a proposal.
 *
 * The older accumulator proposal used by the notify-and-decode variant
 * (receive.rs) is kept beside it as `LegacyProposal`.
 */
module State {
  import opened Uint
  import opened Errors
  import opened Msg

  /** The `State` item: the quorum and the proposal cost. */
  datatype Config = Config(quorum: Uint128, proposalCost: Uint128)

  /** Pending until a vote takes the stake to quorum; then Passed or Failed for good. */
  datatype ProposalStatus = Passed | Failed | Pending

  /** One `(address, amount)` entry of a position's stake list. */
  datatype Stake = Stake(voter: Addr, amount: Uint128)

  datatype Proposal = Proposal(
    title: string,
    body: string,
    action: ProposeAction,
    status: ProposalStatus,
    yes: seq<Stake>,
    no: seq<Stake>,
    abstain: seq<Stake>,
    proposer: Addr,
    proposalCost: Uint128)

  /** The sum of the amounts of a stake list. */
  function StakeSum(s: seq<Stake>): nat {
    if s == [] then 0 else StakeSum(s[..|s| - 1]) + s[|s| - 1].amount
  }

  /** The sum of the amounts a list holds for one voter. */
  function StakeOf(s: seq<Stake>, voter: Addr): nat {
    if s == [] then 0
    else StakeOf(s[..|s| - 1], voter) + (if s[|s| - 1].voter == voter then s[|s| - 1].amount else 0)
  }

  lemma StakeSumAppend(s: seq<Stake>, x: Stake)
    ensures StakeSum(s + [x]) == StakeSum(s) + x.amount
  {
  }

  /** The stake list of one position. */
  function Ballot(p: Proposal, position: VotePosition): seq<Stake> {
    match position
    case Yes => p.yes
    case No => p.no
    case Abstain => p.abstain
  }

  /** `Proposal::get_votes`: the total staked on one position. */
  function GetVotes(p: Proposal, position: VotePosition): nat {
    StakeSum(Ballot(p, position))
  }

  /** `Proposal::get_total_votes`: the total staked on all three positions. */
  function GetTotalVotes(p: Proposal): nat {
    GetVotes(p, Yes) + GetVotes(p, No) + GetVotes(p, Abstain)
  }

  /**
   * `Proposal::new`: a Pending proposal with nothing staked, recording who
   * proposed it and the cost they locked.
   */
  function NewProposal(msg: ProposeMsg, proposer: Addr, cost: Uint128): (p: Proposal)
    ensures p.status == Pending
    ensures forall position :: GetVotes(p, position) == 0
    ensures p.title == msg.title && p.body == msg.body && p.action == msg.action
    ensures p.proposer == proposer && p.proposalCost == cost
  {
    Proposal(msg.title, msg.body, msg.action, Pending, [], [], [], proposer, cost)
  }

  /**
   * `Proposal::add_vote`: appends `(voter, amount)` to the chosen position's
   * list, so that position's total grows by `amount` and nothing else moves.
   */
  function AddVote(p: Proposal, voter: Addr, position: VotePosition, amount: Uint128): (r: Proposal)
    ensures Ballot(r, position) == Ballot(p, position) + [Stake(voter, amount)]
    ensures forall q :: q != position ==> Ballot(r, q) == Ballot(p, q)
    ensures GetVotes(r, position) == GetVotes(p, position) + amount
    ensures GetTotalVotes(r) == GetTotalVotes(p) + amount
    ensures r.status == p.status && r.action == p.action
    ensures r.proposer == p.proposer && r.proposalCost == p.proposalCost
  {
    StakeSumAppend(Ballot(p, position), Stake(voter, amount));
    var entry := [Stake(voter, amount)];
    match position
    case Yes => p.(yes := p.yes + entry)
    case No => p.(no := p.no + entry)
    case Abstain => p.(abstain := p.abstain + entry)
  }

  /** `TokenInfo`: the token's metadata. */
  datatype TokenInfo = TokenInfo(name: string, symbol: string, decimals: Byte, totalSupply: Uint128)

  /** The token's half of the storage: `BALANCES` and `TOKEN_INFO`. */
  datatype Ledger = Ledger(balances: map<Addr, Uint128>, info: TokenInfo)

  /** Everything the contract stores, as one value. */
  datatype World = World(ledger: Ledger, config: Config, proposals: seq<Proposal>, items: seq<Item>)

  /** What storage holds before instantiation writes to it. */
  const Blank: World := World(Ledger(map[], TokenInfo("", "", 0, 0)), Config(0, 0), [], [])

  /**
   * The contract's storage: one field per storage item, updated in place by
   * the entry points.
   */
  class Storage {
    var balances: map<Addr, Uint128>   // BALANCES
    var tokenInfo: TokenInfo           // TOKEN_INFO
    var state: Config                  // STATE
    var proposals: seq<Proposal>       // PROPOSALS
    var items: seq<Item>               // ITEMS

    constructor ()
      ensures Snapshot() == Blank
    {
      balances := map[];
      tokenInfo := TokenInfo("", "", 0, 0);
      state := Config(0, 0);
      proposals := [];
      items := [];
    }

    function Snapshot(): World
      reads this
    {
      World(Ledger(balances, tokenInfo), state, proposals, items)
    }

    /** The host's rollback of a failed call: every item back to `w`. */
    method Rollback(w: World)
      modifies this
      ensures Snapshot() == w
    {
      balances := w.ledger.balances;
      tokenInfo := w.ledger.info;
      state := w.config;
      proposals := w.proposals;
      items := w.items;
    }
  }

  /** The older proposal: a single counter per position, no proposer or cost. */
  datatype LegacyProposal = LegacyProposal(
    title: string,
    body: string,
    action: ProposeAction,
    status: ProposalStatus,
    yes: Uint128,
    no: Uint128,
    abstain: Uint128)

  /** `From<ProposeMsg> for Proposal`: a fresh Pending proposal with zero tallies. */
  function FromProposeMsg(msg: ProposeMsg): (p: LegacyProposal)
    ensures p.status == Pending
    ensures p.yes == 0 && p.no == 0 && p.abstain == 0
    ensures p.title == msg.title && p.body == msg.body && p.action == msg.action
  {
    LegacyProposal(msg.title, msg.body, msg.action, Pending, 0, 0, 0)
  }

  /** The older variant's storage, as one value. */
  datatype LegacyWorld = LegacyWorld(state: Config, proposals: seq<LegacyProposal>)

  /** The older variant's storage: `STATE` and `PROPOSALS`. */
  class LegacyStorage {
    var state: Config
    var proposals: seq<LegacyProposal>

    constructor (state: Config)
      ensures Snapshot() == LegacyWorld(state, [])
    {
      this.state := state;
      proposals := [];
    }

    function Snapshot(): LegacyWorld
      reads this
    {
      LegacyWorld(state, proposals)
    }

    /** The host's rollback of a failed call. */
    method Rollback(w: LegacyWorld)
      modifies this
      ensures Snapshot() == w
    {
      state := w.state;
      proposals := w.proposals;
    }
  }
}
