/** What the governance contract promises, without its counters and lookup maps: a motion IS its
    text, terms and ballots, and motions form a sequence. Tallies, the active count, the has-voted
    flags and the last-proposal times are read off that sequence. `GovernanceContract` stores them
    all separately and is proved to behave the same. */
module GovernanceSpec {
  import opened Host
  import opened MapSum
  import TokenSpec

  datatype Vote = Yes | No | Abstain
  datatype VoteRecord = VoteRecord(vote: Vote, weight: i128)
  datatype ProposalState = Active | Passed | Rejected | Executed | Cancelled
  datatype Asset = Native | Token(address: Address)
  datatype TreasuryAction = TreasuryAction(recipient: Address, amount: i128, asset: Asset)

  datatype Motion = Motion(
    proposer: Address, title: string, description: string, link: Option<string>,
    quorum: i128, startTime: u64, endTime: u64, state: ProposalState, snapshotLedger: u32, voterCount: u32,
    action: Option<TreasuryAction>,
    choiceVotes: seq<i128>,  // weight per choice; empty unless the motion is multi-choice
    winner: Option<nat>,
    cancellationReason: Option<string>,
    ballots: map<Address, VoteRecord>)
  {
    ghost function Weight(v: Vote): int {
      Sum(ballots, WeightFor(v))
    }

    ghost function Total(): int {
      Weight(Yes) + Weight(No) + Weight(Abstain)
    }

    /** The decision rule of a motion without choices. */
    ghost predicate Carried() {
      Total() >= quorum && Weight(Yes) > Weight(No)
    }
  }

  function WeightFor(v: Vote): VoteRecord -> int {
    (r: VoteRecord) => if r.vote == v then r.weight else 0
  }

  function WeightOf(r: VoteRecord): int { r.weight }

  datatype Config = Config(
    admin: Option<Address>, pendingAdmin: Option<Address>, votingToken: Option<Address>, treasury: Option<Address>,
    minProposalBalance: i128, proposalCooldown: u64, minQuorumBps: u32, restrictAdminVote: bool,
    ready: bool, paused: bool)

  datatype Gov = Gov(config: Config, motions: seq<Motion>) {
    function AsAdmin(caller: Address): Guard {
      if config.admin.None? then Panic else Need(config.admin == Some(caller), NotAdmin)
    }

    function Ready(): Guard {
      if !config.ready then Fail(NotInitialized) else Need(!config.paused, ContractPaused)
    }

    function Put(id: nat, m: Motion): Gov
      requires id < |motions|
    {
      this.(motions := motions[id := m])
    }
  }

  const DEPLOYED := Gov(Config(None, None, None, None, 0, 0, 0, false, false, false), [])

  /** The token contract the host finds at the voting-token address. */
  function VotingToken(g: Gov, tokens: map<Address, TokenSpec.Token>): Option<TokenSpec.Token> {
    if g.config.votingToken.Some? && g.config.votingToken.value in tokens
    then Some(tokens[g.config.votingToken.value]) else None
  }

  function ActiveCount(ms: seq<Motion>): nat {
    if ms == [] then 0
    else ActiveCount(ms[..|ms| - 1]) + if ms[|ms| - 1].state == Active then 1 else 0
  }

  /** Start time of the latest motion by p. */
  function LatestStart(ms: seq<Motion>, p: Address): Option<u64> {
    if ms == [] then None
    else if ms[|ms| - 1].proposer == p then Some(ms[|ms| - 1].startTime)
    else LatestStart(ms[..|ms| - 1], p)
  }

  // ------------------------------------------------------------------ entry points

  function Initialize(g: Gov, admin: Address, token: Address, minBalance: i128, cooldown: u64,
                      minQuorumBps: u32, restrictAdmin: bool, treasury: Option<Address>): Outcome<Gov> {
    var check := Need(!g.config.ready, AlreadyInitialized);
    :- check;
    Ok(g.(config := Config(Some(admin), g.config.pendingAdmin, Some(token), treasury,
                           minBalance, cooldown, minQuorumBps, restrictAdmin, true, false)))
  }

  /** The arguments of create_proposal. */
  datatype Draft = Draft(title: string, description: string, link: Option<string>, quorum: i128, duration: u64,
                         action: Option<TreasuryAction>)

  function TextFits(s: string, most: nat): bool {
    0 < |s| <= most
  }

  function CheckDraft(d: Draft): Guard {
    if !TextFits(d.title, 128) then Fail(InvalidTitle)
    else if !TextFits(d.description, 1024) then Fail(InvalidDescription)
    else if d.link.Some? && !TextFits(d.link.value, 256) then Fail(InvalidLink)
    else if d.quorum <= 0 then Fail(InvalidQuorum)
    else Need(60 <= d.duration <= 2_592_000, InvalidDurationRange)
  }

  /** The quorum floor: `bps` basis points of the supply, rounded down. */
  function CheckFloor(quorum: i128, supply: int, bps: u32): Guard {
    if bps == 0 then Pass
    else if supply * bps > I128_MAX then Fail(ArithmeticOverflow)
    else Need(quorum >= supply * bps / 10_000, QuorumBelowFloor)
  }

  function CheckCooldown(last: Option<u64>, cooldown: u64, now: u64): Guard {
    if cooldown == 0 || last.None? then Pass
    else if last.value + cooldown > U64_MAX then Panic
    else Need(now >= last.value + cooldown, ProposalCooldown)
  }

  /** What a proposal must clear against the voting token and the proposer's history. */
  ghost function Standing(g: Gov, env: Env, token: TokenSpec.Token, proposer: Address, quorum: i128): Guard {
    if quorum > token.Supply() then Fail(QuorumExceedsSupply)
    else if CheckFloor(quorum, token.Supply(), g.config.minQuorumBps) != Pass
      then CheckFloor(quorum, token.Supply(), g.config.minQuorumBps)
    else if g.config.minProposalBalance > 0 && token.Balance(proposer) < g.config.minProposalBalance
      then Fail(InsufficientBalance)
    else CheckCooldown(LatestStart(g.motions, proposer), g.config.proposalCooldown, env.now)
  }

  function Draw(d: Draft, proposer: Address, env: Env): Motion
    requires env.now + d.duration <= U64_MAX
  {
    Motion(proposer, d.title, d.description, d.link, d.quorum, env.now, env.now + d.duration, Active, env.sequence, 0,
           d.action, [], None, None, map[])
  }

  /** A well-formed draft, once there is room for it, against the voting token. */
  ghost function Table(g: Gov, env: Env, tokens: map<Address, TokenSpec.Token>, proposer: Address,
                       d: Draft): Outcome<Gov> {
    var token := VotingToken(g, tokens);
    :- Unless(token.None?);
    :- Standing(g, env, token.value, proposer, d.quorum);
    :- Unless(env.now + d.duration > U64_MAX || |g.motions| >= U64_MAX);
    Ok(g.(motions := g.motions + [Draw(d, proposer, env)]))
  }

  /** How tabling ends, check by check. */
  lemma TableEnds(g: Gov, env: Env, tokens: map<Address, TokenSpec.Token>, proposer: Address, d: Draft)
    ensures Table(g, env, tokens, proposer, d) == match VotingToken(g, tokens)
      case None => Trap
      case Some(token) =>
        if Standing(g, env, token, proposer, d.quorum) != Pass
          then Standing(g, env, token, proposer, d.quorum).PropagateFailure()
        else if env.now + d.duration > U64_MAX || |g.motions| >= U64_MAX then Trap
        else Ok(g.(motions := g.motions + [Draw(d, proposer, env)]))
  {
  }

  ghost function CreateProposal(g: Gov, env: Env, tokens: map<Address, TokenSpec.Token>, proposer: Address,
                                d: Draft): Outcome<Gov> {
    var check := g.Ready();
    :- check;
    :- CheckDraft(d);
    :- Need(ActiveCount(g.motions) < 50, ProposalsStillActive);
    Table(g, env, tokens, proposer, d)
  }

  function Find(g: Gov, id: nat): Guard {
    Need(id < |g.motions|, ProposalNotFound)
  }

  ghost function AmendProposal(g: Gov, proposer: Address, id: u64, title: string, description: string): Outcome<Gov> {
    var check := g.Ready();
    :- check;
    :- Find(g, id);
    var m := g.motions[id];
    :- Need(m.proposer == proposer, NotProposer);
    :- Need(m.state == Active, ProposalNotActive);
    :- Need(m.Total() <= I128_MAX, ArithmeticOverflow);
    :- Need(m.Total() <= 0, VotesAlreadyCast);
    :- Need(TextFits(title, 128), InvalidTitle);
    :- Need(TextFits(description, 1024), InvalidDescription);
    Ok(g.Put(id, m.(title := title, description := description)))
  }

  /** What cast_vote asks before it looks at the voting token. */
  function CheckBallot(g: Gov, env: Env, voter: Address, id: nat): Guard {
    if g.Ready() != Pass then g.Ready()
    else if id >= |g.motions| then Fail(ProposalNotFound)
    else if g.motions[id].state != Active then Fail(ProposalNotActive)
    else if env.now < g.motions[id].startTime then Fail(VotingNotStarted)
    else if env.now > g.motions[id].endTime then Fail(VotingPeriodEnded)
    else if voter in g.motions[id].ballots then Fail(AlreadyVoted)
    else Need(!(g.config.restrictAdminVote && g.config.admin == Some(voter) && g.motions[id].proposer == voter),
              AdminVoteRestricted)
  }

  /** The weight a cast would carry: the live balance of a voter who has not delegated. */
  function VotingPower(g: Gov, tokens: map<Address, TokenSpec.Token>, voter: Address): Outcome<i128> {
    var token := VotingToken(g, tokens);
    :- Unless(token.None?);
    :- Need(voter !in token.value.delegations, NoVotingPower);
    :- Need(token.value.Balance(voter) > 0, NoVotingPower);
    Ok(token.value.Balance(voter))
  }

  /** The record joins the ballots if its tally can hold it. */
  ghost function Admit(g: Gov, voter: Address, id: nat, record: VoteRecord): Outcome<Gov>
    requires id < |g.motions|
  {
    var m := g.motions[id];
    :- Need(m.Weight(record.vote) + record.weight <= I128_MAX, ArithmeticOverflow);
    :- Unless(m.voterCount == U32_MAX);
    Ok(g.Put(id, m.(ballots := m.ballots[voter := record], voterCount := m.voterCount + 1)))
  }

  /** A vote on an open ballot. */
  ghost function Enter(g: Gov, tokens: map<Address, TokenSpec.Token>, voter: Address, id: nat, vote: Vote): Outcome<Gov>
    requires id < |g.motions|
  {
    var weight :- VotingPower(g, tokens, voter);
    Admit(g, voter, id, VoteRecord(vote, weight))
  }

  ghost function CastVote(g: Gov, env: Env, tokens: map<Address, TokenSpec.Token>, voter: Address, id: u64,
                          vote: Vote): Outcome<Gov> {
    var check := CheckBallot(g, env, voter, id);
    :- check;
    Enter(g, tokens, voter, id, vote)
  }

  /** What retract_vote and change_vote ask before they look at the record. */
  function CheckRevision(g: Gov, env: Env, voter: Address, id: nat): Guard {
    if g.Ready() != Pass then g.Ready()
    else if id >= |g.motions| then Fail(ProposalNotFound)
    else if g.motions[id].state != Active then Fail(ProposalNotActive)
    else if env.now > g.motions[id].endTime then Fail(VotingPeriodEnded)
    else Need(voter in g.motions[id].ballots, VoteNotFound)
  }

  function RetractVote(g: Gov, env: Env, voter: Address, id: u64): Outcome<Gov> {
    var check := CheckRevision(g, env, voter, id);
    :- check;
    var m := g.motions[id];
    Ok(g.Put(id, m.(ballots := m.ballots - {voter})))
  }

  /** The weight of the voter's record moves to the tally for `vote` if that can hold it. */
  ghost function Shift(g: Gov, voter: Address, id: nat, vote: Vote): Outcome<Gov>
    requires id < |g.motions| && voter in g.motions[id].ballots
  {
    var m := g.motions[id];
    var weight := m.ballots[voter].weight;
    :- Need(m.Weight(vote) + weight <= I128_MAX, ArithmeticOverflow);
    Ok(g.Put(id, m.(ballots := m.ballots[voter := VoteRecord(vote, weight)])))
  }

  ghost function ChangeVote(g: Gov, env: Env, voter: Address, id: u64, vote: Vote): Outcome<Gov> {
    var check := CheckRevision(g, env, voter, id);
    :- check;
    :- Need(g.motions[id].ballots[voter].vote != vote, VoteAlreadySame);
    Shift(g, voter, id, vote)
  }

  /** The lowest index holding the largest weight. */
  ghost predicate FirstPastThePost(votes: seq<i128>, best: nat) {
    && best < |votes|
    && (forall i :: 0 <= i < |votes| ==> votes[i] <= votes[best])
    && (forall i :: 0 <= i < best ==> votes[i] < votes[best])
  }

  /** The winner found from the right: an earlier choice beats a later one unless the later is heavier. */
  function Winner(votes: seq<i128>): (best: nat)
    requires votes != []
    ensures FirstPastThePost(votes, best)
  {
    if |votes| == 1 then 0
    else
      var b := Winner(votes[..|votes| - 1]);
      if votes[|votes| - 1] > votes[b] then |votes| - 1 else b
  }

  /** At most one index is the lowest with the largest weight. */
  lemma WinnerIsUnique(votes: seq<i128>, a: nat, b: nat)
    requires FirstPastThePost(votes, a) && FirstPastThePost(votes, b)
    ensures a == b
  {
    assert votes[a] == votes[b];
  }

  ghost function Decide(m: Motion): Motion {
    if m.choiceVotes == [] then m.(state := if m.Carried() then Passed else Rejected)
    else if m.Weight(Yes) >= m.quorum then m.(state := Passed, winner := Some(Winner(m.choiceVotes)))
    else m.(state := Rejected)
  }

  ghost function Finalise(g: Gov, env: Env, id: u64): Outcome<Gov> {
    var check := g.Ready();
    :- check;
    :- Find(g, id);
    var m := g.motions[id];
    :- Need(m.state == Active, ProposalNotActive);
    :- Need(env.now > m.endTime, VotingStillOpen);
    :- Need(m.Total() <= I128_MAX, ArithmeticOverflow);
    Ok(g.Put(id, Decide(m)))
  }

  /** The payout an execution must make before it may mark the motion. */
  function Due(g: Gov, id: nat): Option<TreasuryAction>
    requires id < |g.motions|
  {
    if g.config.treasury.Some? then g.motions[id].action else None
  }

  /** Execution as seen by this contract alone; `paid` tells whether the due payout went through. */
  function Execute(g: Gov, caller: Address, id: u64, paid: bool): Outcome<Gov> {
    var check := g.AsAdmin(caller);
    :- check;
    :- Find(g, id);
    :- Need(g.motions[id].state == Passed, ProposalNotPassed);
    :- Unless(Due(g, id).Some? && !paid);
    Ok(g.Put(id, g.motions[id].(state := Executed)))
  }

  function Cancel(g: Gov, caller: Address, id: u64, reason: Option<string>): Outcome<Gov> {
    var check := g.AsAdmin(caller);
    :- check;
    :- Find(g, id);
    :- Need(g.motions[id].state == Active, ProposalNotActive);
    Ok(g.Put(id, g.motions[id].(state := Cancelled, cancellationReason := reason)))
  }

  /** The last moment a quorum may change: the first tenth of the voting period. */
  function QuorumDeadline(m: Motion): int {
    m.startTime + (if m.endTime >= m.startTime then m.endTime - m.startTime else 0) / 10
  }

  /** A quorum within the supply reaches its motion while that is young. */
  function Requorum(g: Gov, env: Env, id: u64, quorum: i128): Outcome<Gov> {
    var check := Find(g, id);
    :- check;
    var m := g.motions[id];
    :- Need(m.state == Active, ProposalNotActive);
    :- Need(env.now <= QuorumDeadline(m), QuorumUpdateNotAllowed);
    Ok(g.Put(id, m.(quorum := quorum)))
  }

  ghost function UpdateQuorum(g: Gov, env: Env, tokens: map<Address, TokenSpec.Token>, caller: Address, id: u64,
                              quorum: i128): Outcome<Gov> {
    var check := g.AsAdmin(caller);
    :- check;
    :- Need(quorum > 0, InvalidQuorum);
    var token := VotingToken(g, tokens);
    :- Unless(token.None?);
    :- Need(quorum <= token.value.Supply(), QuorumExceedsSupply);
    Requorum(g, env, id, quorum)
  }

  function ProposeAdmin(g: Gov, caller: Address, newAdmin: Address): Outcome<Gov> {
    var check := g.AsAdmin(caller);
    :- check;
    :- Need(newAdmin != Zero, InvalidNewAdmin);
    Ok(g.(config := g.config.(pendingAdmin := Some(newAdmin))))
  }

  function AcceptAdmin(g: Gov, caller: Address): Outcome<Gov> {
    var check := Need(g.config.pendingAdmin.Some?, NoPendingAdmin);
    :- check;
    :- Need(g.config.pendingAdmin == Some(caller), NotPendingAdmin);
    :- Unless(g.config.admin.None?);
    Ok(g.(config := g.config.(admin := Some(caller), pendingAdmin := None)))
  }

  function CancelAdminTransfer(g: Gov, caller: Address): Outcome<Gov> {
    var check := g.AsAdmin(caller);
    :- check;
    :- Need(g.config.pendingAdmin.Some?, NoPendingAdmin);
    Ok(g.(config := g.config.(pendingAdmin := None)))
  }

  function UpdateVotingToken(g: Gov, caller: Address, token: Address): Outcome<Gov> {
    var check := g.AsAdmin(caller);
    :- check;
    :- Need(ActiveCount(g.motions) == 0, ProposalsStillActive);
    Ok(g.(config := g.config.(votingToken := Some(token))))
  }

  function SetPaused(g: Gov, caller: Address, on: bool): Outcome<Gov> {
    var check := g.AsAdmin(caller);
    :- check;
    :- Need(g.config.paused != on, if on then ContractPaused else NotPaused);
    Ok(g.(config := g.config.(paused := on)))
  }

  function SetMinBalance(g: Gov, caller: Address, value: i128): Outcome<Gov> {
    var check := g.AsAdmin(caller);
    :- check;
    :- Need(value >= 0, InsufficientBalance);
    Ok(g.(config := g.config.(minProposalBalance := value)))
  }

  function SetCooldown(g: Gov, caller: Address, value: u64): Outcome<Gov> {
    var check := g.AsAdmin(caller);
    :- check;
    Ok(g.(config := g.config.(proposalCooldown := value)))
  }

  function SetRestrictAdminVote(g: Gov, caller: Address, value: bool): Outcome<Gov> {
    var check := g.AsAdmin(caller);
    :- check;
    Ok(g.(config := g.config.(restrictAdminVote := value)))
  }

  /** Calls addressed to one motion. */
  datatype MotionCall =
    | AmendCall(title: string, description: string)
    | CastCall(vote: Vote)
    | RetractCall
    | ChangeCall(vote: Vote)
    | FinaliseCall
    | ExecuteCall
    | CancelCall(reason: Option<string>)
    | UpdateQuorumCall(quorum: i128)

  /** Calls that only change the configuration. */
  datatype ConfigCall =
    | InitializeCall(admin: Address, token: Address, minBalance: i128, cooldown: u64, minQuorumBps: u32,
                 restrictAdmin: bool, treasury: Option<Address>)
    | ProposeAdminCall(newAdmin: Address)
    | AcceptAdminCall
    | CancelAdminTransferCall
    | UpdateVotingTokenCall(token: Address)
    | SetPausedCall(on: bool)
    | SetMinBalanceCall(value: i128)
    | SetCooldownCall(seconds: u64)
    | SetRestrictAdminVoteCall(flag: bool)

  datatype GovCall = Create(draft: Draft) | On(id: u64, act: MotionCall) | Configure(setting: ConfigCall)

  ghost function StepOn(g: Gov, env: Env, tokens: map<Address, TokenSpec.Token>, paid: bool, caller: Address,
                        id: u64, act: MotionCall): Outcome<Gov> {
    match act
    case AmendCall(title, description) => AmendProposal(g, caller, id, title, description)
    case CastCall(vote) => CastVote(g, env, tokens, caller, id, vote)
    case RetractCall => RetractVote(g, env, caller, id)
    case ChangeCall(vote) => ChangeVote(g, env, caller, id, vote)
    case FinaliseCall => Finalise(g, env, id)
    case ExecuteCall => Execute(g, caller, id, paid)
    case CancelCall(reason) => Cancel(g, caller, id, reason)
    case UpdateQuorumCall(quorum) => UpdateQuorum(g, env, tokens, caller, id, quorum)
  }

  function StepConfig(g: Gov, caller: Address, setting: ConfigCall): Outcome<Gov> {
    match setting
    case InitializeCall(admin, token, minBalance, cooldown, bps, restrictAdmin, treasury) =>
      Initialize(g, admin, token, minBalance, cooldown, bps, restrictAdmin, treasury)
    case ProposeAdminCall(newAdmin) => ProposeAdmin(g, caller, newAdmin)
    case AcceptAdminCall => AcceptAdmin(g, caller)
    case CancelAdminTransferCall => CancelAdminTransfer(g, caller)
    case UpdateVotingTokenCall(token) => UpdateVotingToken(g, caller, token)
    case SetPausedCall(on) => SetPaused(g, caller, on)
    case SetMinBalanceCall(value) => SetMinBalance(g, caller, value)
    case SetCooldownCall(seconds) => SetCooldown(g, caller, seconds)
    case SetRestrictAdminVoteCall(flag) => SetRestrictAdminVote(g, caller, flag)
  }

  ghost function Step(g: Gov, env: Env, tokens: map<Address, TokenSpec.Token>, paid: bool, caller: Address,
                      call: GovCall): Outcome<Gov> {
    match call
    case Create(draft) => CreateProposal(g, env, tokens, caller, draft)
    case On(id, act) => StepOn(g, env, tokens, paid, caller, id, act)
    case Configure(setting) => StepConfig(g, caller, setting)
  }
}
