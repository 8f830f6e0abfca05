/** The governance contract as it is written: each entry point reads a proposal into a local, updates
    its fields and the counters, and writes them back. Every entry point is proved to do what
    `GovernanceSpec` says of the motions, so in every reachable state the tallies equal the sums of the
    vote records, the flags mark exactly the records, and the active count counts the active proposals. */
module GovernanceContract {
  import opened Host
  import opened GovernanceSpec
  import opened GovernanceStorage
  import opened TokenContract
  import opened TreasuryContract
  import G = GovernanceSpec
  import S = SystemSpec
  import L = GovernanceLaws
  import Paging

  class GovernanceContract {
    var ready: bool
    var paused: bool
    var admin: Option<Address>
    var pendingAdmin: Option<Address>
    var votingToken: Option<Address>
    var treasuryContract: Option<Address>
    var minProposalBalance: i128
    var proposalCooldown: u64
    var minQuorumBps: u32
    var restrictAdminVote: bool
    var proposalCount: u64
    var activeProposalCount: u64
    var proposals: map<u64, Proposal>
    var hasVoted: map<(u64, Address), bool>
    var voteRecords: map<(u64, Address), VoteRecord>
    var lastProposal: map<Address, u64>
    var choiceVotes: map<(u64, u32), i128>

    ghost var model: Gov
    ghost var payouts: seq<S.Payout>

    ghost function Configuration(): Config
      reads this
    {
      Config(admin, pendingAdmin, votingToken, treasuryContract, minProposalBalance, proposalCooldown, minQuorumBps,
             restrictAdminVote, ready, paused)
    }

    ghost function Storage(): Store
      reads this
    {
      Store(proposals, proposalCount, activeProposalCount, lastProposal, hasVoted, voteRecords, choiceVotes)
    }

    ghost predicate Valid()
      reads this
    {
      && model.config == Configuration()
      && Represents(Storage(), model)
    }

    constructor ()
      ensures Valid() && model == G.DEPLOYED && payouts == []
    {
      ready, paused, restrictAdminVote := false, false, false;
      admin, pendingAdmin, votingToken, treasuryContract := None, None, None, None;
      minProposalBalance, proposalCooldown, minQuorumBps, proposalCount, activeProposalCount := 0, 0, 0, 0, 0;
      proposals, hasVoted, voteRecords, lastProposal, choiceVotes := map[], map[], map[], map[], map[];
      model, payouts := G.DEPLOYED, [];
    }

    // ---------------------------------------------------------------- checks

    method AssertReady() returns (g: Guard)
      requires Valid()
      ensures g == model.Ready()
    {
      if !ready {
        return Fail(NotInitialized);
      }
      if paused {
        return Fail(ContractPaused);
      }
      return Pass;
    }

    method AssertAdmin(caller: Address) returns (g: Guard)
      requires Valid()
      ensures g == model.AsAdmin(caller)
    {
      if admin.None? {
        return Panic;
      }
      if admin.value != caller {
        return Fail(NotAdmin);
      }
      return Pass;
    }

    predicate HasVoted(id: u64, voter: Address)
      reads this
    {
      (id, voter) in hasVoted && hasVoted[(id, voter)]
    }

    /** The configuration entries now read as after `setting`. */
    ghost method Adopt(caller: Address, setting: ConfigCall)
      requires Represents(Storage(), model)
      requires StepConfig(model, caller, setting).Ok?
      requires StepConfig(model, caller, setting).value.config == Configuration()
      modifies this`model
      ensures Valid() && model == StepConfig(old(model), caller, setting).value
    {
      Reconfigure(Storage(), model, caller, setting);
      Become(StepConfig(model, caller, setting).value);
    }

    /** The storage now stands for g. */
    ghost method Become(g: Gov)
      requires Represents(Storage(), g) && g.config == Configuration()
      modifies this`model
      ensures Valid() && model == g
    {
      model := g;
    }

    // ---------------------------------------------------------------- creation

    method Initialize(admin: Address, token: Address, minBalance: i128, cooldown: u64, minQuorumBps: u32,
                      restrictAdmin: bool, treasury: Option<Address>) returns (r: Outcome<()>)
      requires Valid()
      modifies this
      ensures Valid() && payouts == old(payouts)
      ensures Matches(G.Initialize(old(model), admin, token, minBalance, cooldown, minQuorumBps, restrictAdmin,
                                   treasury),
                      r, old(model), model)
    {
      if ready {
        return Err(AlreadyInitialized);
      }
      SetUp(admin, token, minBalance, cooldown, minQuorumBps, restrictAdmin, treasury);
      Adopt(admin, ConfigCall.InitializeCall(admin, token, minBalance, cooldown, minQuorumBps, restrictAdmin,
                                             treasury));
      return Ok(());
    }

    /** The writes of initialize. */
    method SetUp(admin: Address, token: Address, minBalance: i128, cooldown: u64, minQuorumBps: u32,
                 restrictAdmin: bool, treasury: Option<Address>)
      requires treasuryContract == None && proposalCount == 0
      modifies this`admin, this`votingToken, this`treasuryContract, this`proposalCount, this`minProposalBalance,
               this`proposalCooldown, this`minQuorumBps, this`restrictAdminVote, this`paused, this`ready
      ensures proposalCount == 0
      ensures Configuration() == Config(Some(admin), pendingAdmin, Some(token), treasury, minBalance, cooldown,
                                        minQuorumBps,
                                        restrictAdmin, true, false)
    {
      this.admin := Some(admin);
      votingToken := Some(token);
      if treasury.Some? {
        treasuryContract := treasury;
      }
      proposalCount := 0;
      minProposalBalance := minBalance;
      proposalCooldown := cooldown;
      this.minQuorumBps := minQuorumBps;
      restrictAdminVote := restrictAdmin;
      paused := false;
      ready := true;
    }

    method CreateProposal(env: Env, tokens: Registry, proposer: Address, d: Draft) returns (r: Outcome<u64>)
      requires Valid() && AllValid(tokens)
      modifies this
      ensures Valid() && payouts == old(payouts)
      ensures Matches(G.CreateProposal(old(model), env, old(States(tokens)), proposer, d), r, old(model), model)
      ensures r.Ok? ==> r.value == |old(model).motions|
    {
      var ready := AssertReady();
      if ready != Pass {
        return ready.PropagateFailure();
      }
      var draft := CheckDraft(d);
      if draft != Pass {
        return draft.PropagateFailure();
      }
      var activeCount := activeProposalCount;
      if activeCount >= 50 {
        return Err(ProposalsStillActive);
      }
      r := TableProposal(env, tokens, proposer, d);
    }

    /** The part of create_proposal that consults the voting token, and the writes. */
    method TableProposal(env: Env, tokens: Registry, proposer: Address, d: Draft) returns (r: Outcome<u64>)
      requires Valid() && AllValid(tokens) && model.config.ready && activeProposalCount < 50
      requires G.CheckDraft(d) == Pass
      modifies this`proposals, this`proposalCount, this`activeProposalCount, this`lastProposal, this`model
      ensures Valid() && Matches(G.Table(old(model), env, old(States(tokens)), proposer, d), r, old(model), model)
      ensures r.Ok? ==> r.value == |old(model).motions|
    {
      TableEnds(model, env, States(tokens), proposer, d);
      if votingToken.value !in tokens {
        return Trap;
      }
      var standing := CheckStanding(env, tokens[votingToken.value], proposer, d.quorum);
      if standing != Pass {
        return standing.PropagateFailure();
      }
      var now := env.now;
      var id := proposalCount;
      if now + d.duration > U64_MAX || id == U64_MAX {
        return Trap;
      }
      NewStands(id, d, proposer, env);
      Append(NewEntry(id, d, proposer, env), d, env);
      return Ok(id);
    }

    /** The writes of create_proposal. */
    method Append(proposal: Proposal, ghost d: Draft, ghost env: Env)
      requires Valid() && ready && proposalCount < U64_MAX && activeProposalCount < 50
      requires G.CheckDraft(d) == Pass && env.now + d.duration <= U64_MAX
      requires Stands(proposal, proposalCount, Draw(d, proposal.proposer, env))
      modifies this`proposals, this`proposalCount, this`activeProposalCount, this`lastProposal, this`model
      ensures Valid() && model == old(model).(motions := old(model).motions + [Draw(d, proposal.proposer, env)])
    {
      ghost var grown := model.(motions := model.motions + [Draw(d, proposal.proposer, env)]);
      assert proposal.startTime == env.now;
      StoreNew(Storage(), model, proposal, d, proposal.proposer, env);
      WriteNew(proposal);
      assert Represents(Storage(), grown);
      Become(grown);
    }

    method WriteNew(proposal: Proposal)
      requires proposalCount < U64_MAX && activeProposalCount < U64_MAX
      modifies this`proposals, this`proposalCount, this`activeProposalCount, this`lastProposal
      ensures Storage() == old(Storage()).(
        proposals := old(proposals)[old(proposalCount) := proposal], count := old(proposalCount) + 1,
        active := old(activeProposalCount) + 1, last := old(lastProposal)[proposal.proposer := proposal.startTime])
    {
      proposals := proposals[proposalCount := proposal];
      proposalCount := proposalCount + 1;
      activeProposalCount := activeProposalCount + 1;
      lastProposal := lastProposal[proposal.proposer := proposal.startTime];
    }

    method CheckDraft(d: Draft) returns (g: Guard)
      ensures g == G.CheckDraft(d)
    {
      if |d.title| == 0 || |d.title| > 128 {
        return Fail(InvalidTitle);
      }
      if |d.description| == 0 || |d.description| > 1024 {
        return Fail(InvalidDescription);
      }
      if d.link.Some? {
        if |d.link.value| == 0 || |d.link.value| > 256 {
          return Fail(InvalidLink);
        }
      }
      if d.quorum <= 0 {
        return Fail(InvalidQuorum);
      }
      if d.duration < 60 || d.duration > 2_592_000 {
        return Fail(InvalidDurationRange);
      }
      return Pass;
    }

    /** The checks of create_proposal against the token and the proposer's history. */
    method CheckStanding(env: Env, token: TokenContract, proposer: Address, quorum: i128) returns (g: Guard)
      requires Valid() && token.Valid() && quorum > 0
      ensures g == Standing(model, env, token.State(), proposer, quorum)
    {
      var supply := token.totalSupply;
      if quorum > supply {
        return Fail(QuorumExceedsSupply);
      }
      if minQuorumBps > 0 {
        if supply * minQuorumBps > I128_MAX {
          return Fail(ArithmeticOverflow);
        }
        var floor := supply * minQuorumBps / 10_000;
        if quorum < floor {
          return Fail(QuorumBelowFloor);
        }
      }
      if minProposalBalance > 0 {
        var balance := token.Balance(proposer);
        if balance < minProposalBalance {
          return Fail(InsufficientBalance);
        }
      }
      if proposalCooldown > 0 {
        assert LastAt(lastProposal, model.motions, proposer);
        if proposer in lastProposal {
          if lastProposal[proposer] + proposalCooldown > U64_MAX {
            return Panic;
          }
          if env.now < lastProposal[proposer] + proposalCooldown {
            return Fail(ProposalCooldown);
          }
        }
      }
      return Pass;
    }

    // ---------------------------------------------------------------- storage writes

    /** set_proposal: overwrite an entry whose records and place in the active count do not change. */
    method SetProposal(id: u64, p: Proposal, ghost m: Motion)
      requires Valid() && Replaces(model, id, p, m) && m.ballots == model.motions[id].ballots
      requires m.state == model.motions[id].state || (model.motions[id].state != Active && m.state != Active)
      modifies this`proposals, this`model
      ensures Valid() && model == old(model).Put(id, m)
    {
      StoreProposal(Storage(), model, id, p, m);
      proposals := proposals[id := p];
      model := model.Put(id, m);
    }

    /** The writes of finalise and cancel: an active proposal leaves Active. */
    method CloseProposal(id: u64, p: Proposal, ghost m: Motion)
      requires Valid() && Replaces(model, id, p, m) && m.ballots == model.motions[id].ballots
      requires model.motions[id].state == Active && m.state != Active
      modifies this`proposals, this`activeProposalCount, this`model
      ensures Valid() && model == old(model).Put(id, m)
    {
      GovernanceStorage.CloseProposal(Storage(), model, id, p, m);
      proposals := proposals[id := p];
      var activeCount := activeProposalCount;
      if activeCount > 0 {
        activeProposalCount := activeCount - 1;
      }
      model := model.Put(id, m);
    }

    /** The writes of cast_vote and change_vote (the flag of a changed vote is set already). */
    method SetRecord(id: u64, p: Proposal, voter: Address, record: VoteRecord, ghost m: Motion)
      requires Valid() && Replaces(model, id, p, m) && m.ballots == model.motions[id].ballots[voter := record]
      requires m.state == model.motions[id].state
      modifies this`proposals, this`hasVoted, this`voteRecords, this`model
      ensures Valid() && model == old(model).Put(id, m)
    {
      StoreRecord(Storage(), model, id, p, m, voter, record);
      WriteVote(id, p, voter, true, voteRecords[(id, voter) := record]);
      Become(model.Put(id, m));
    }

    /** The writes of retract_vote. */
    method RemoveRecord(id: u64, p: Proposal, voter: Address, ghost m: Motion)
      requires Valid() && Replaces(model, id, p, m) && m.ballots == model.motions[id].ballots - {voter}
      requires m.state == model.motions[id].state
      modifies this`proposals, this`hasVoted, this`voteRecords, this`model
      ensures Valid() && model == old(model).Put(id, m)
    {
      EraseRecord(Storage(), model, id, p, m, voter);
      WriteVote(id, p, voter, false, voteRecords - {(id, voter)});
      Become(model.Put(id, m));
    }

    method WriteVote(id: u64, p: Proposal, voter: Address, flag: bool, records: map<(u64, Address), VoteRecord>)
      modifies this`proposals, this`hasVoted, this`voteRecords
      ensures Storage() == old(Storage()).(
        proposals := old(proposals)[id := p], hasVoted := old(hasVoted)[(id, voter) := flag], records := records)
    {
      hasVoted := hasVoted[(id, voter) := flag];
      voteRecords := records;
      proposals := proposals[id := p];
    }

    // ---------------------------------------------------------------- proposals and votes

    /** The entry for id, or not found. */
    method Load(id: u64) returns (found: Option<Proposal>)
      requires Valid()
      ensures found.Some? <==> id < |model.motions|
      ensures found.Some? ==>
        found.value.id == id && Stands(found.value, id, model.motions[id]) && L.MotionOk(model.motions[id])
    {
      if id !in proposals {
        return None;
      }
      assert Stands(proposals[id], id, model.motions[id]);
      return Some(proposals[id]);
    }

    method AmendProposal(proposer: Address, id: u64, title: string, description: string) returns (r: Outcome<()>)
      requires Valid()
      modifies this
      ensures Valid() && payouts == old(payouts)
      ensures Matches(G.AmendProposal(old(model), proposer, id, title, description), r, old(model), model)
    {
      var check := AssertReady();
      :- check;
      var found := Load(id);
      if found.None? {
        return Err(ProposalNotFound);
      }
      var proposal := found.value;
      if proposal.proposer != proposer {
        return Err(NotProposer);
      }
      if proposal.state != Active {
        return Err(ProposalNotActive);
      }
      TalliesStand(proposal, id, model.motions[id]);
      if proposal.votesYes + proposal.votesNo > I128_MAX
         || proposal.votesYes + proposal.votesNo + proposal.votesAbstain > I128_MAX {
        return Err(ArithmeticOverflow);
      }
      if proposal.votesYes + proposal.votesNo + proposal.votesAbstain > 0 {
        return Err(VotesAlreadyCast);
      }
      if |title| == 0 || |title| > 128 {
        return Err(InvalidTitle);
      }
      if |description| == 0 || |description| > 1024 {
        return Err(InvalidDescription);
      }
      ghost var (m, e) := (model.motions[id], L.Amended(title, description));
      L.EventKeepsMotionOk(m, Env(0, 0, false), e);
      var amended := proposal.(title := title, description := description);
      TermsStand(proposal, id, m, amended, L.Effect(m, Env(0, 0, false), e));
      SetProposal(id, amended, L.Effect(m, Env(0, 0, false), e));
      return Ok(());
    }

    /** What cast_vote checks before it asks the voting token. */
    method OpenBallot(env: Env, voter: Address, id: u64) returns (r: Outcome<Proposal>)
      requires Valid()
      ensures match G.CheckBallot(model, env, voter, id)
        case Pass => r.Ok? && Stands(r.value, id, model.motions[id])
        case Fail(e) => r == Err(e)
        case Panic => r == Trap
    {
      var check := AssertReady();
      :- check;
      var found := Load(id);
      if found.None? {
        return Err(ProposalNotFound);
      }
      var proposal := found.value;
      if proposal.state != Active {
        return Err(ProposalNotActive);
      }
      var now := env.now;
      if now < proposal.startTime {
        return Err(VotingNotStarted);
      }
      if now > proposal.endTime {
        return Err(VotingPeriodEnded);
      }
      assert RecordAt(hasVoted, voteRecords, model.motions, id, voter);
      if HasVoted(id, voter) {
        return Err(AlreadyVoted);
      }
      if restrictAdminVote {
        if voter == admin.value && proposal.proposer == admin.value {
          return Err(AdminVoteRestricted);
        }
      }
      return Ok(proposal);
    }

    /** The voting token's answer about a voter. */
    method WeighVoter(tokens: Registry, voter: Address, snapshotLedger: u64) returns (r: Outcome<i128>)
      requires Valid() && model.config.ready
      ensures r == G.VotingPower(model, States(tokens), voter)
    {
      if votingToken.value !in tokens {
        return Trap;
      }
      var token := tokens[votingToken.value];
      if token.GetDelegation(voter).Some? {
        return Err(NoVotingPower);
      }
      var weight := token.BalanceAt(voter, snapshotLedger);
      if weight <= 0 {
        return Err(NoVotingPower);
      }
      return Ok(weight);
    }

    method CastVote(env: Env, tokens: Registry, voter: Address, id: u64, vote: Vote) returns (r: Outcome<()>)
      requires Valid()
      modifies this
      ensures Valid() && payouts == old(payouts)
      ensures Matches(G.CastVote(old(model), env, old(States(tokens)), voter, id, vote), r, old(model), model)
    {
      var ballot := OpenBallot(env, voter, id);
      if !ballot.Ok? {
        return ballot.PropagateFailure();
      }
      r := EnterVote(env, tokens, voter, id, ballot.value, vote);
    }

    method EnterVote(ghost env: Env, tokens: Registry, voter: Address, id: u64, proposal: Proposal,
                     vote: Vote) returns (r: Outcome<()>)
      requires Valid() && G.CheckBallot(model, env, voter, id) == Pass
      requires Stands(proposal, id, model.motions[id])
      modifies this`proposals, this`hasVoted, this`voteRecords, this`model
      ensures Valid() && Matches(G.Enter(old(model), old(States(tokens)), voter, id, vote), r, old(model), model)
    {
      var weighed := WeighVoter(tokens, voter, proposal.snapshotLedger);
      if !weighed.Ok? {
        return weighed.PropagateFailure();
      }
      var weight := weighed.value;
      r := RecordCast(env, id, proposal, voter, VoteRecord(vote, weight));
    }

    /** The record enters its tally if it fits, and the voter count grows by one. */
    method RecordCast(ghost env: Env, id: u64, p: Proposal, voter: Address, record: VoteRecord) returns (r: Outcome<()>)
      requires Valid() && G.CheckBallot(model, env, voter, id) == Pass
      requires Stands(p, id, model.motions[id]) && record.weight > 0
      modifies this`proposals, this`hasVoted, this`voteRecords, this`model
      ensures Valid() && Matches(G.Admit(old(model), voter, id, record), r, old(model), model)
    {
      ghost var m := model.motions[id];
      TallyStands(p, id, m, record.vote);
      if Tally(p, record.vote) + record.weight > I128_MAX {
        return Err(ArithmeticOverflow);
      }
      if p.voterCount == U32_MAX {
        return Trap;
      }
      CastStands(p, id, m, env, voter, record);
      L.EventKeepsMotionOk(m, env, L.Voted(voter, record));
      SetRecord(id, CountedEntry(p, record), voter, record, L.Effect(m, env, L.Voted(voter, record)));
      return Ok(());
    }

    /** What retract_vote and change_vote do first: find the proposal and the voter's record. */
    method LoadRecord(env: Env, voter: Address, id: u64) returns (r: Outcome<(Proposal, VoteRecord)>)
      requires Valid()
      ensures match G.CheckRevision(model, env, voter, id)
        case Pass => r.Ok? && Stands(r.value.0, id, model.motions[id]) && r.value.1 == model.motions[id].ballots[voter]
        case Fail(e) => r == Err(e)
        case Panic => r == Trap
    {
      var check := AssertReady();
      :- check;
      var found := Load(id);
      if found.None? {
        return Err(ProposalNotFound);
      }
      var proposal := found.value;
      if proposal.state != Active {
        return Err(ProposalNotActive);
      }
      if env.now > proposal.endTime {
        return Err(VotingPeriodEnded);
      }
      assert RecordAt(hasVoted, voteRecords, model.motions, id, voter);
      if !HasVoted(id, voter) {
        return Err(VoteNotFound);
      }
      return Ok((proposal, voteRecords[(id, voter)]));
    }

    method RetractVote(env: Env, voter: Address, id: u64) returns (r: Outcome<()>)
      requires Valid()
      modifies this
      ensures Valid() && payouts == old(payouts)
      ensures Matches(G.RetractVote(old(model), env, voter, id), r, old(model), model)
    {
      var loaded := LoadRecord(env, voter, id);
      if !loaded.Ok? {
        return loaded.PropagateFailure();
      }
      var p, record := loaded.value.0, loaded.value.1;
      RecordRetraction(env, id, p, voter, record);
      return Ok(());
    }

    /** The tally of the record loses its weight; the subtraction is unchecked and cannot fail. */
    method RecordRetraction(ghost env: Env, id: u64, p: Proposal, voter: Address, record: VoteRecord)
      requires Valid() && id < |model.motions| && Stands(p, id, model.motions[id])
      requires L.Allowed(model.motions[id], env, L.Retracted(voter)) && record == model.motions[id].ballots[voter]
      modifies this`proposals, this`hasVoted, this`voteRecords, this`model
      ensures Valid() && model == old(model).Put(id, L.Effect(old(model).motions[id], env, L.Retracted(voter)))
    {
      ghost var retracted := L.Effect(model.motions[id], env, L.Retracted(voter));
      assert L.MotionOk(model.motions[id]);
      RetractReplaces(model, id, p, env, voter);
      RemoveRecord(id, ReducedEntry(p, record), voter, retracted);
    }

    method ChangeVote(env: Env, voter: Address, id: u64, vote: Vote) returns (r: Outcome<()>)
      requires Valid()
      modifies this
      ensures Valid() && payouts == old(payouts)
      ensures Matches(G.ChangeVote(old(model), env, voter, id, vote), r, old(model), model)
    {
      var loaded := LoadRecord(env, voter, id);
      if !loaded.Ok? {
        return loaded.PropagateFailure();
      }
      var p, record := loaded.value.0, loaded.value.1;
      if record.vote == vote {
        return Err(VoteAlreadySame);
      }
      r := RecordChange(env, id, p, voter, record, vote);
    }

    /** The record's weight leaves its old tally, then enters the new one if it fits. */
    method RecordChange(ghost env: Env, id: u64, p: Proposal, voter: Address, record: VoteRecord,
                        vote: Vote) returns (r: Outcome<()>)
      requires Valid() && id < |model.motions| && Stands(p, id, model.motions[id])
      requires L.Allowed(model.motions[id], env, L.Retracted(voter))
      requires record == model.motions[id].ballots[voter] && record.vote != vote
      modifies this`proposals, this`hasVoted, this`voteRecords, this`model
      ensures Valid() && Matches(G.Shift(old(model), voter, id, vote), r, old(model), model)
    {
      NoUnderflow(model, id, p, voter, vote);
      L.ShiftEnds(model, env, voter, id, vote);
      var reduced := ReducedEntry(p, record);
      if Tally(reduced, vote) + record.weight > I128_MAX {
        return Err(ArithmeticOverflow);
      }
      StoreChange(env, id, p, voter, record, vote);
      return Ok(());
    }

    /** The entry with the weight in its new tally, and the record with its new option. */
    method StoreChange(ghost env: Env, id: u64, p: Proposal, voter: Address, record: VoteRecord, vote: Vote)
      requires Valid() && id < |model.motions| && Stands(p, id, model.motions[id])
      requires L.Allowed(model.motions[id], env, L.Changed(voter, vote)) && record == model.motions[id].ballots[voter]
      modifies this`proposals, this`hasVoted, this`voteRecords, this`model
      ensures Valid() && model == old(model).Put(id, L.Effect(old(model).motions[id], env, L.Changed(voter, vote)))
    {
      ghost var changed := L.Effect(model.motions[id], env, L.Changed(voter, vote));
      assert L.MotionOk(model.motions[id]);
      ChangeReplaces(model, id, p, env, voter, vote);
      SetRecord(id, MovedEntry(p, record, vote), voter, VoteRecord(vote, record.weight), changed);
    }

    // ---------------------------------------------------------------- finalisation and execution

    /** First past the post over the stored choice weights: a later choice wins only if heavier. */
    method BestChoice(id: u64, count: nat) returns (best: u32)
      requires Valid() && id < |model.motions| && 0 < count == |model.motions[id].choiceVotes| <= U32_MAX
      ensures FirstPastThePost(model.motions[id].choiceVotes, best)
    {
      ghost var votes := model.motions[id].choiceVotes;
      best := 0;
      var bestWeight := ChoiceWeight(choiceVotes, id, 0);
      assert ChoiceAt(choiceVotes, model.motions, id, 0);
      for i := 1 to count
        invariant best < i && bestWeight == votes[best]
        invariant forall j :: 0 <= j < i ==> votes[j] <= votes[best]
        invariant forall j :: 0 <= j < best ==> votes[j] < votes[best]
      {
        var w := ChoiceWeight(choiceVotes, id, i);
        assert ChoiceAt(choiceVotes, model.motions, id, i);
        if w > bestWeight {
          bestWeight := w;
          best := i;
        }
      }
    }

    /** The outcome of the vote on an expired proposal whose tallies add up. */
    method Verdict(id: u64, p: Proposal, totalVotes: i128) returns (proposal: Proposal)
      requires Valid() && id < |model.motions| && Stands(p, id, model.motions[id])
      requires totalVotes == model.motions[id].Total()
      ensures Stands(proposal, id, Decide(model.motions[id]))
    {
      proposal := p;
      TalliesStand(p, id, model.motions[id]);
      if |proposal.choices| != 0 {
        var totalParticipation := proposal.votesYes;
        if totalParticipation >= proposal.quorum {
          var bestIndex := BestChoice(id, |proposal.choices|);
          WinnerIsUnique(model.motions[id].choiceVotes, bestIndex, Winner(model.motions[id].choiceVotes));
          proposal := proposal.(winningChoice := Some(bestIndex), state := Passed);
        } else {
          proposal := proposal.(state := Rejected);
        }
      } else {
        var passed := totalVotes >= proposal.quorum && proposal.votesYes > proposal.votesNo;
        proposal := proposal.(state := if passed then Passed else Rejected);
      }
      TermsStand(p, id, model.motions[id], proposal, Decide(model.motions[id]));
    }

    method Finalise(env: Env, id: u64) returns (r: Outcome<()>)
      requires Valid()
      modifies this
      ensures Valid() && payouts == old(payouts)
      ensures Matches(G.Finalise(old(model), env, id), r, old(model), model)
    {
      var check := AssertReady();
      :- check;
      var found := Load(id);
      if found.None? {
        return Err(ProposalNotFound);
      }
      var proposal := found.value;
      if proposal.state != Active {
        return Err(ProposalNotActive);
      }
      if env.now <= proposal.endTime {
        return Err(VotingStillOpen);
      }
      TalliesStand(proposal, id, model.motions[id]);
      if proposal.votesYes + proposal.votesNo > I128_MAX
         || proposal.votesYes + proposal.votesNo + proposal.votesAbstain > I128_MAX {
        return Err(ArithmeticOverflow);
      }
      var totalVotes := proposal.votesYes + proposal.votesNo + proposal.votesAbstain;
      L.EventKeepsMotionOk(model.motions[id], env, L.Decided);
      proposal := Verdict(id, proposal, totalVotes);
      CloseProposal(id, proposal, Decide(model.motions[id]));
      return Ok(());
    }

    method Cancel(caller: Address, id: u64, reason: Option<string>) returns (r: Outcome<()>)
      requires Valid()
      modifies this
      ensures Valid() && payouts == old(payouts)
      ensures Matches(G.Cancel(old(model), caller, id, reason), r, old(model), model)
    {
      var check := AssertAdmin(caller);
      :- check;
      var found := Load(id);
      if found.None? {
        return Err(ProposalNotFound);
      }
      var proposal := found.value;
      if proposal.state != Active {
        return Err(ProposalNotActive);
      }
      ghost var m := model.motions[id];
      L.EventKeepsMotionOk(m, Env(0, 0, false), L.Withdrawn(reason));
      proposal := proposal.(state := Cancelled, cancellationReason := reason);
      TermsStand(found.value, id, m, proposal, L.Effect(m, Env(0, 0, false), L.Withdrawn(reason)));
      CloseProposal(id, proposal, L.Effect(m, Env(0, 0, false), L.Withdrawn(reason)));
      return Ok(());
    }

    method UpdateQuorum(env: Env, tokens: Registry, caller: Address, id: u64, quorum: i128) returns (r: Outcome<()>)
      requires Valid() && AllValid(tokens)
      modifies this
      ensures Valid() && payouts == old(payouts)
      ensures Matches(G.UpdateQuorum(old(model), env, old(States(tokens)), caller, id, quorum), r, old(model), model)
    {
      var check := AssertAdmin(caller);
      :- check;
      if quorum <= 0 {
        return Err(InvalidQuorum);
      }
      if votingToken.value !in tokens {
        return Trap;
      }
      var supply := tokens[votingToken.value].totalSupply;
      if quorum > supply {
        return Err(QuorumExceedsSupply);
      }
      r := Requorum(env, id, quorum);
    }

    /** The part of update_quorum that looks at the proposal; start plus window never overflows. */
    method Requorum(env: Env, id: u64, quorum: i128) returns (r: Outcome<()>)
      requires Valid() && quorum > 0
      modifies this`proposals, this`model
      ensures Valid() && Matches(G.Requorum(old(model), env, id, quorum), r, old(model), model)
    {
      var found := Load(id);
      if found.None? {
        return Err(ProposalNotFound);
      }
      var proposal := found.value;
      if proposal.state != Active {
        return Err(ProposalNotActive);
      }
      var duration := proposal.endTime - proposal.startTime;
      var window := duration / 10;
      var deadline: u64 := proposal.startTime + window;
      if env.now > deadline {
        return Err(QuorumUpdateNotAllowed);
      }
      ghost var m := model.motions[id];
      L.EventKeepsMotionOk(m, env, L.Requorumed(quorum));
      TermsStand(proposal, id, m, proposal.(quorum := quorum), L.Effect(m, env, L.Requorumed(quorum)));
      SetProposal(id, proposal.(quorum := quorum), L.Effect(m, env, L.Requorumed(quorum)));
      return Ok(());
    }

    /** The world around a call: this contract, the treasury and the token contracts. */
    ghost function World(tokens: Registry, treasury: TreasuryContract): S.World
      reads this, treasury, tokens.Values
    {
      S.World(model, States(tokens), treasury.State(), payouts)
    }

    method Execute(env: Env, tokens: Registry, treasury: TreasuryContract, caller: Address,
                   id: u64) returns (r: Outcome<()>)
      requires Valid() && AllValid(tokens)
      modifies this, treasury, tokens.Values
      ensures Valid() && AllValid(tokens)
      ensures Matches(S.Execute(old(World(tokens, treasury)), env, caller, id), r, old(World(tokens, treasury)),
                      World(tokens, treasury))
    {
      S.ExecuteEnds(World(tokens, treasury), env, caller, id);
      :- AssertAdmin(caller);
      var found := Load(id);
      if found.None? {
        return Err(ProposalNotFound);
      }
      var proposal := found.value;
      if proposal.state != Passed {
        return Err(ProposalNotPassed);
      }
      r := Settle(env, tokens, treasury, id, proposal);
    }

    /** Pay what is due, then mark the proposal; a failed payout fails the execution. */
    method Settle(env: Env, tokens: Registry, treasury: TreasuryContract, id: u64,
                  proposal: Proposal) returns (r: Outcome<()>)
      requires Valid() && AllValid(tokens)
      requires id < |model.motions| && Stands(proposal, id, model.motions[id]) && proposal.state == Passed
      modifies this`proposals, this`model, this`payouts, treasury, tokens.Values
      ensures Valid() && AllValid(tokens)
      ensures Matches(S.Settle(old(World(tokens, treasury)), env, id), r, old(World(tokens, treasury)),
                      World(tokens, treasury))
    {
      ghost var w := World(tokens, treasury);
      S.SettleEnds(w, env, id);
      var paid := PayDue(env, tokens, treasury, id, proposal);
      if !paid.Ok? {
        return Trap;
      }
      Conclude(id, proposal, S.Logged(w, id), tokens, treasury);
      return Ok(());
    }

    /** The disbursement an execution invokes when an action is attached and a treasury is set. */
    method PayDue(env: Env, tokens: Registry, treasury: TreasuryContract, id: u64,
                  proposal: Proposal) returns (r: Outcome<()>)
      requires Valid() && AllValid(tokens) && id < |model.motions| && Stands(proposal, id, model.motions[id])
      modifies treasury, tokens.Values
      ensures AllValid(tokens)
      ensures Matches(S.PayDue(old(World(tokens, treasury)), env, id), r, old(World(tokens, treasury)),
                      World(tokens, treasury))
    {
      if |proposal.treasuryAction| > 0 {
        if treasuryContract.Some? {
          if treasuryContract.value != Treasury {
            return Trap;  // no other treasury contract is part of this ledger
          }
          r := treasury.Disburse(env, tokens, Governance, proposal.treasuryAction[0], World(tokens, treasury));
          return;
        }
      }
      return Ok(());
    }

    /** Marking and logging touch neither the tokens nor the treasury. */
    method Conclude(id: u64, p: Proposal, ghost log: seq<S.Payout>, ghost tokens: Registry,
                    ghost treasury: TreasuryContract)
      requires Valid() && AllValid(tokens)
      requires id < |model.motions| && Stands(p, id, model.motions[id]) && p.state == Passed
      modifies this`proposals, this`model, this`payouts
      ensures Valid() && AllValid(tokens)
      ensures World(tokens, treasury) == old(World(tokens, treasury)).(
        gov := old(model).Put(id, old(model).motions[id].(state := Executed)), payouts := old(payouts) + log)
    {
      MarkExecuted(id, p, log);
      assert forall a :: a in tokens ==> tokens[a].State() == old(tokens[a].State());
      assert States(tokens) == old(States(tokens));
    }

    method MarkExecuted(id: u64, p: Proposal, ghost log: seq<S.Payout>)
      requires Valid() && id < |model.motions| && Stands(p, id, model.motions[id]) && p.state == Passed
      modifies this`proposals, this`model, this`payouts
      ensures Valid() && payouts == old(payouts) + log
      ensures model == old(model).Put(id, old(model).motions[id].(state := Executed))
    {
      ghost var m := model.motions[id];
      assert L.MotionOk(m);
      L.EventKeepsMotionOk(m, Env(0, 0, false), L.Paid);
      TermsStand(p, id, m, p.(state := Executed), L.Effect(m, Env(0, 0, false), L.Paid));
      SetProposal(id, p.(state := Executed), L.Effect(m, Env(0, 0, false), L.Paid));
      payouts := payouts + log;
    }

    // ---------------------------------------------------------------- administration

    method ProposeAdmin(caller: Address, newAdmin: Address) returns (r: Outcome<()>)
      requires Valid()
      modifies this
      ensures Valid() && payouts == old(payouts)
      ensures Matches(G.ProposeAdmin(old(model), caller, newAdmin), r, old(model), model)
    {
      var check := AssertAdmin(caller);
      :- check;
      if newAdmin == Zero {
        return Err(InvalidNewAdmin);
      }
      pendingAdmin := Some(newAdmin);
      Adopt(caller, ConfigCall.ProposeAdminCall(newAdmin));
      return Ok(());
    }

    method AcceptAdmin(caller: Address) returns (r: Outcome<()>)
      requires Valid()
      modifies this
      ensures Valid() && payouts == old(payouts)
      ensures Matches(G.AcceptAdmin(old(model), caller), r, old(model), model)
    {
      if pendingAdmin.None? {
        return Err(NoPendingAdmin);
      }
      if caller != pendingAdmin.value {
        return Err(NotPendingAdmin);
      }
      if admin.None? {
        return Trap;
      }
      admin := Some(caller);
      pendingAdmin := None;
      Adopt(caller, ConfigCall.AcceptAdminCall);
      return Ok(());
    }

    method CancelAdminTransfer(caller: Address) returns (r: Outcome<()>)
      requires Valid()
      modifies this
      ensures Valid() && payouts == old(payouts)
      ensures Matches(G.CancelAdminTransfer(old(model), caller), r, old(model), model)
    {
      var check := AssertAdmin(caller);
      :- check;
      if pendingAdmin.None? {
        return Err(NoPendingAdmin);
      }
      pendingAdmin := None;
      Adopt(caller, ConfigCall.CancelAdminTransferCall);
      return Ok(());
    }

    method UpdateVotingToken(caller: Address, token: Address) returns (r: Outcome<()>)
      requires Valid()
      modifies this
      ensures Valid() && payouts == old(payouts)
      ensures Matches(G.UpdateVotingToken(old(model), caller, token), r, old(model), model)
    {
      var check := AssertAdmin(caller);
      :- check;
      var activeCount := activeProposalCount;
      if activeCount > 0 {
        return Err(ProposalsStillActive);
      }
      votingToken := Some(token);
      Adopt(caller, ConfigCall.UpdateVotingTokenCall(token));
      return Ok(());
    }

    method Pause(caller: Address) returns (r: Outcome<()>)
      requires Valid()
      modifies this
      ensures Valid() && payouts == old(payouts)
      ensures Matches(G.SetPaused(old(model), caller, true), r, old(model), model)
    {
      var check := AssertAdmin(caller);
      :- check;
      if paused {
        return Err(ContractPaused);
      }
      paused := true;
      Adopt(caller, ConfigCall.SetPausedCall(true));
      return Ok(());
    }

    method Unpause(caller: Address) returns (r: Outcome<()>)
      requires Valid()
      modifies this
      ensures Valid() && payouts == old(payouts)
      ensures Matches(G.SetPaused(old(model), caller, false), r, old(model), model)
    {
      var check := AssertAdmin(caller);
      :- check;
      if !paused {
        return Err(NotPaused);
      }
      paused := false;
      Adopt(caller, ConfigCall.SetPausedCall(false));
      return Ok(());
    }

    method SetMinBalance(caller: Address, value: i128) returns (r: Outcome<()>)
      requires Valid()
      modifies this
      ensures Valid() && payouts == old(payouts)
      ensures Matches(G.SetMinBalance(old(model), caller, value), r, old(model), model)
    {
      var check := AssertAdmin(caller);
      :- check;
      if value < 0 {
        return Err(InsufficientBalance);
      }
      minProposalBalance := value;
      Adopt(caller, ConfigCall.SetMinBalanceCall(value));
      return Ok(());
    }

    method SetCooldown(caller: Address, seconds: u64) returns (r: Outcome<()>)
      requires Valid()
      modifies this
      ensures Valid() && payouts == old(payouts)
      ensures Matches(G.SetCooldown(old(model), caller, seconds), r, old(model), model)
    {
      var check := AssertAdmin(caller);
      :- check;
      proposalCooldown := seconds;
      Adopt(caller, ConfigCall.SetCooldownCall(seconds));
      return Ok(());
    }

    method SetRestrictAdminVote(caller: Address, flag: bool) returns (r: Outcome<()>)
      requires Valid()
      modifies this
      ensures Valid() && payouts == old(payouts)
      ensures Matches(G.SetRestrictAdminVote(old(model), caller, flag), r, old(model), model)
    {
      var check := AssertAdmin(caller);
      :- check;
      restrictAdminVote := flag;
      Adopt(caller, ConfigCall.SetRestrictAdminVoteCall(flag));
      return Ok(());
    }

    // ---------------------------------------------------------------- pages

    /** The stored proposals in id order. */
    ghost function Listing(): (all: seq<Proposal>)
      requires Valid()
      reads this
      ensures |all| == proposalCount
      ensures forall id :: 0 <= id < |all| ==> id in proposals && all[id] == proposals[id]
    {
      seq(proposalCount, id requires 0 <= id < proposalCount reads this requires Valid() => proposals[id])
    }

    /** A reader can resume from the id of the last proposal received. */
    lemma ListedInIdOrder()
      requires Valid()
      ensures forall id :: 0 <= id < |Listing()| ==> Listing()[id].id == id
    {
      forall id | 0 <= id < |Listing()| ensures Listing()[id].id == id {
        assert Stands(proposals[id], id, model.motions[id]);
      }
    }

    method GetProposals(from: u64, limit: u32) returns (r: Outcome<seq<Proposal>>)
      requires Valid()
      ensures r == Paging.Page(Listing(), from, limit)
    {
      var count := proposalCount;
      var cap := if limit > 20 then 20 else limit;
      if from + cap > U64_MAX {
        return Trap;
      }
      var end := if from + cap < count then from + cap else count;
      var found: seq<Proposal> := [];
      ghost var all := Listing();
      var id := from;
      while id < end
        invariant from <= id && (id <= end || id == from)
        invariant found == Paging.Span(all, from, id)
      {
        assert id in proposals && all[id] == proposals[id];
        Paging.SpanGrows(all, from, id);
        if id in proposals {
          found := found + [proposals[id]];
        }
        id := id + 1;
      }
      return Ok(found);
    }

    method GetProposalsByState(state: ProposalState, from: u64, limit: u32) returns (found: seq<Proposal>)
      requires Valid()
      ensures var wanted := (p: Proposal) => p.state == state;
        Paging.ReadAt(found, Listing(), Paging.FilteredPage(Listing(), wanted, from, limit))
    {
      var count := proposalCount;
      var cap := if limit > 20 then 20 else limit;
      found := [];
      ghost var all, wanted := Listing(), (p: Proposal) => p.state == state;
      ghost var ids: seq<nat> := [];
      var currentId: nat := from;
      while |found| < cap && currentId < count
        invariant Paging.Scanned(all, wanted, from, currentId, ids)
        invariant Paging.ReadAt(found, all, ids) && |found| <= cap
        decreases count - currentId
      {
        assert currentId in proposals && all[currentId] == proposals[currentId];
        Paging.ScanOne(all, wanted, from, currentId, ids);
        ids := if wanted(all[currentId]) then ids + [currentId] else ids;
        if currentId in proposals {
          var proposal := proposals[currentId];
          if proposal.state == state {
            found := found + [proposal];
          }
        }
        currentId := currentId + 1;
      }
      Paging.ScanDone(all, wanted, from, currentId, ids, limit);
    }

    // ---------------------------------------------------------------- dispatch

    method InvokeConfig(caller: Address, setting: ConfigCall) returns (r: Outcome<()>)
      requires Valid()
      modifies this
      ensures Valid() && payouts == old(payouts)
      ensures Matches(StepConfig(old(model), caller, setting), r, old(model), model)
    {
      match setting
      case InitializeCall(admin, token, minBalance, cooldown, bps, restrictAdmin, treasury) =>
        r := Initialize(admin, token, minBalance, cooldown, bps, restrictAdmin, treasury);
      case ProposeAdminCall(newAdmin) => r := ProposeAdmin(caller, newAdmin);
      case AcceptAdminCall => r := AcceptAdmin(caller);
      case CancelAdminTransferCall => r := CancelAdminTransfer(caller);
      case UpdateVotingTokenCall(token) => r := UpdateVotingToken(caller, token);
      case SetPausedCall(on) => if on { r := Pause(caller); } else { r := Unpause(caller); }
      case SetMinBalanceCall(value) => r := SetMinBalance(caller, value);
      case SetCooldownCall(seconds) => r := SetCooldown(caller, seconds);
      case SetRestrictAdminVoteCall(flag) => r := SetRestrictAdminVote(caller, flag);
    }

    method InvokeOn(env: Env, tokens: Registry, caller: Address, id: u64, act: MotionCall) returns (r: Outcome<()>)
      requires Valid() && AllValid(tokens) && !act.ExecuteCall?
      modifies this
      ensures Valid() && payouts == old(payouts)
      ensures Matches(StepOn(old(model), env, old(States(tokens)), false, caller, id, act), r, old(model), model)
    {
      match act
      case AmendCall(title, description) => r := AmendProposal(caller, id, title, description);
      case CastCall(vote) => r := CastVote(env, tokens, caller, id, vote);
      case RetractCall => r := RetractVote(env, caller, id);
      case ChangeCall(vote) => r := ChangeVote(env, caller, id, vote);
      case FinaliseCall => r := Finalise(env, id);
      case CancelCall(reason) => r := Cancel(caller, id, reason);
      case UpdateQuorumCall(quorum) => r := UpdateQuorum(env, tokens, caller, id, quorum);
    }

    /** Any call to this contract, as the host dispatches it. */
    method Invoke(env: Env, tokens: Registry, treasury: TreasuryContract, caller: Address,
                  call: GovCall) returns (r: Outcome<()>)
      requires Valid() && AllValid(tokens)
      modifies this, treasury, tokens.Values
      ensures Valid() && AllValid(tokens)
      ensures Matches(S.GovStep(old(World(tokens, treasury)), env, caller, call), r, old(World(tokens, treasury)),
                      World(tokens, treasury))
    {
      if call.On? && call.act.ExecuteCall? {
        r := Execute(env, tokens, treasury, caller, call.id);
      } else {
        ghost var w := World(tokens, treasury);
        r := InvokeSelf(env, tokens, caller, call);
        assert World(tokens, treasury) == w.(gov := model);
        S.GovStepEnds(w, env, caller, call, r, model);
      }
    }

    /** Calls that write this contract's storage only. */
    method InvokeSelf(env: Env, tokens: Registry, caller: Address, call: GovCall) returns (r: Outcome<()>)
      requires Valid() && AllValid(tokens) && !(call.On? && call.act.ExecuteCall?)
      modifies this
      ensures Valid() && payouts == old(payouts)
      ensures Matches(Step(old(model), env, old(States(tokens)), false, caller, call), r, old(model), model)
    {
      match call
      case Create(draft) =>
        var created := CreateProposal(env, tokens, caller, draft);
        r := if created.Ok? then Ok(()) else created.PropagateFailure();
      case On(id, act) => r := InvokeOn(env, tokens, caller, id, act);
      case Configure(setting) => r := InvokeConfig(caller, setting);
    }
  }
}
