/** What each call to the governance contract asks and what it leaves behind, written out in the terms of the stored
    configuration, the motion, the clock and the voting token, without the functions that define the calls. */
module GovernanceCalls {
  import opened Host
  import opened GovernanceSpec
  import opened GovernanceLaws
  import TokenSpec

  type Tokens = map<Address, TokenSpec.Token>

  ghost function Result(g: Gov, env: Env, tokens: Tokens, caller: Address, id: u64, act: MotionCall): Outcome<Gov> {
    Step(g, env, tokens, false, caller, On(id, act))
  }

  /** Motion id exists and is Active. */
  predicate ActiveAt(g: Gov, id: nat) {
    id < |g.motions| && g.motions[id].state == Active
  }

  /** The contract takes proposals and votes. */
  predicate InService(g: Gov) {
    g.config.ready && !g.config.paused
  }

  /** Some contract answers at the voting-token address. */
  predicate TokenAnswers(g: Gov, tokens: Tokens) {
    g.config.votingToken.Some? && g.config.votingToken.value in tokens
  }

  // ------------------------------------------------------------------ what the specification derives

  /** The numbers of the Active motions. */
  function ActiveIds(ms: seq<Motion>): set<nat> {
    set i: nat | i < |ms| && ms[i].state == Active
  }

  lemma {:induction false} ActiveCountIs(ms: seq<Motion>)
    ensures ActiveCount(ms) == |ActiveIds(ms)|
  {
    if ms != [] {
      var n := |ms| - 1;
      ActiveCountIs(ms[..n]);
      if ms[n].state == Active {
        assert ActiveIds(ms) == ActiveIds(ms[..n]) + {n};
      } else {
        assert ActiveIds(ms) == ActiveIds(ms[..n]);
      }
    }
  }

  /** Motion i is the last one by p. */
  predicate Newest(ms: seq<Motion>, p: Address, i: nat) {
    i < |ms| && ms[i].proposer == p && forall j :: i < j < |ms| ==> ms[j].proposer != p
  }

  /** p has waited for the cooldown since its last motion. */
  ghost predicate Rested(ms: seq<Motion>, p: Address, cooldown: u64, now: u64) {
    cooldown == 0 || forall i: nat :: Newest(ms, p, i) ==> ms[i].startTime + cooldown <= now
  }

  lemma {:induction false} LatestStartIs(ms: seq<Motion>, p: Address)
    ensures LatestStart(ms, p).None? ==> forall i: nat :: !Newest(ms, p, i)
    ensures LatestStart(ms, p).Some? ==> exists i: nat :: Newest(ms, p, i)
    ensures forall i: nat :: Newest(ms, p, i) ==> LatestStart(ms, p) == Some(ms[i].startTime)
  {
    if ms != [] {
      var n := |ms| - 1;
      if ms[n].proposer == p {
        assert Newest(ms, p, n);
      } else {
        LatestStartIs(ms[..n], p);
        forall i: nat ensures Newest(ms, p, i) <==> Newest(ms[..n], p, i) {
          NewestInFront(ms, p, i);
        }
      }
    }
  }

  lemma NewestInFront(ms: seq<Motion>, p: Address, i: nat)
    requires ms != [] && ms[|ms| - 1].proposer != p
    ensures Newest(ms, p, i) <==> Newest(ms[..|ms| - 1], p, i)
  {
    var front := ms[..|ms| - 1];
    if Newest(front, p, i) {
      forall j | i < j < |ms| ensures ms[j].proposer != p {
        if j < |front| { assert front[j].proposer != p; }
      }
    }
  }

  lemma RestedIs(g: Gov, p: Address, now: u64)
    ensures CheckCooldown(LatestStart(g.motions, p), g.config.proposalCooldown, now) == Pass <==>
      Rested(g.motions, p, g.config.proposalCooldown, now)
  {
    LatestStartIs(g.motions, p);
  }

  // ------------------------------------------------------------------ proposals

  /** Text, link, quorum and duration are in range. */
  predicate WellFormed(d: Draft) {
    && 1 <= |d.title| <= 128 && 1 <= |d.description| <= 1024
    && (d.link.Some? ==> 1 <= |d.link.value| <= 256)
    && d.quorum > 0 && 60 <= d.duration <= 2_592_000
  }

  /** The quorum is within the supply and at least the floor in basis points; the proposer holds the minimum. */
  ghost predicate Supported(c: Config, token: TokenSpec.Token, proposer: Address, quorum: i128) {
    && quorum <= token.Supply()
    && (c.minQuorumBps > 0 ==>
          token.Supply() * c.minQuorumBps <= I128_MAX && quorum >= token.Supply() * c.minQuorumBps / 10_000)
    && (c.minProposalBalance > 0 ==> token.Balance(proposer) >= c.minProposalBalance)
  }

  lemma StandingIs(g: Gov, env: Env, token: TokenSpec.Token, proposer: Address, quorum: i128)
    ensures Standing(g, env, token, proposer, quorum) == Pass <==>
      Supported(g.config, token, proposer, quorum) && Rested(g.motions, proposer, g.config.proposalCooldown, env.now)
  {
    RestedIs(g, proposer, env.now);
  }

  lemma WellFormedIs(d: Draft)
    ensures CheckDraft(d) == Pass <==> WellFormed(d)
  {
  }

  /** A proposal is accepted exactly under these conditions. */
  lemma CreateSucceedsIff(g: Gov, env: Env, tokens: Tokens, caller: Address, d: Draft)
    ensures Step(g, env, tokens, false, caller, Create(d)).Ok? <==>
      && InService(g) && WellFormed(d) && |ActiveIds(g.motions)| < 50 && TokenAnswers(g, tokens)
      && Supported(g.config, tokens[g.config.votingToken.value], caller, d.quorum)
      && Rested(g.motions, caller, g.config.proposalCooldown, env.now)
      && env.now + d.duration <= U64_MAX && |g.motions| < U64_MAX
  {
    ActiveCountIs(g.motions);
    WellFormedIs(d);
    if TokenAnswers(g, tokens) { StandingIs(g, env, tokens[g.config.votingToken.value], caller, d.quorum); }
  }

  /** The motion is the caller's draft, opened now, with nothing on record. */
  predicate AsDrafted(m: Motion, d: Draft, caller: Address, env: Env) {
    && m.proposer == caller && m.title == d.title && m.description == d.description && m.link == d.link
    && m.quorum == d.quorum && m.action == d.action
    && m.startTime == env.now && m.endTime == env.now + d.duration && m.snapshotLedger == env.sequence
    && m.state == Active && m.ballots == map[] && m.voterCount == 0
    && m.choiceVotes == [] && m.winner == None && m.cancellationReason == None
  }

  /** And this is all it does: one motion more, as drafted. */
  lemma CreationIsAsDrafted(g: Gov, env: Env, tokens: Tokens, caller: Address, d: Draft)
    requires Step(g, env, tokens, false, caller, Create(d)).Ok?
    ensures var g' := Step(g, env, tokens, false, caller, Create(d)).value;
      && g'.config == g.config && |g'.motions| == |g.motions| + 1 && g'.motions[..|g.motions|] == g.motions
      && AsDrafted(g'.motions[|g.motions|], d, caller, env)
  {
  }

  /** The proposer rewrites the text of an Active motion nobody is on record for. */
  lemma AmendRewritesText(g: Gov, env: Env, tokens: Tokens, caller: Address, id: u64, title: string,
                          description: string)
    requires id < |g.motions| ==> PositiveWeights(g.motions[id])
    ensures var r := Result(g, env, tokens, caller, id, AmendCall(title, description));
      && (r.Ok? <==>
            && InService(g) && ActiveAt(g, id) && g.motions[id].proposer == caller && g.motions[id].ballots == map[]
            && 1 <= |title| <= 128 && 1 <= |description| <= 1024)
      && (r.Ok? ==> r.value == g.(motions :=
            g.motions[id := g.motions[id].(title := title, description := description)]))
  {
    AmendEnds(g, caller, id, title, description);
    if id < |g.motions| { TotalZeroIffNoBallot(g.motions[id]); }
  }

  // ------------------------------------------------------------------ votes

  /** The caller may cast on motion id now, its balance aside. */
  predicate BallotOpen(g: Gov, env: Env, caller: Address, id: nat) {
    && InService(g) && ActiveAt(g, id)
    && g.motions[id].startTime <= env.now <= g.motions[id].endTime
    && caller !in g.motions[id].ballots
    && !(g.config.restrictAdminVote && g.config.admin == Some(caller) && g.motions[id].proposer == caller)
  }

  lemma BallotOpenIs(g: Gov, env: Env, caller: Address, id: nat)
    ensures CheckBallot(g, env, caller, id) == Pass <==> BallotOpen(g, env, caller, id)
  {
  }

  /** Who has not delegated and holds tokens casts the live balance, once. */
  lemma CastRecordsBalance(g: Gov, env: Env, tokens: Tokens, caller: Address, id: u64, vote: Vote)
    ensures var r := Result(g, env, tokens, caller, id, CastCall(vote));
      && (r.Ok? <==>
            && BallotOpen(g, env, caller, id) && TokenAnswers(g, tokens)
            && var token := tokens[g.config.votingToken.value];
               caller !in token.delegations && token.Balance(caller) > 0
               && g.motions[id].Weight(vote) + token.Balance(caller) <= I128_MAX
               && g.motions[id].voterCount < U32_MAX)
      && (r.Ok? ==>
            && id < |g.motions| && TokenAnswers(g, tokens)
            && var (m, balance) := (g.motions[id], tokens[g.config.votingToken.value].Balance(caller));
               r.value == g.(motions := g.motions[id := m.(
                 ballots := m.ballots[caller := VoteRecord(vote, balance)], voterCount := m.voterCount + 1)]))
  {
    BallotOpenIs(g, env, caller, id);
  }

  /** The caller's vote on motion id can be revised now. */
  predicate Revisable(g: Gov, env: Env, caller: Address, id: nat) {
    InService(g) && ActiveAt(g, id) && env.now <= g.motions[id].endTime && caller in g.motions[id].ballots
  }

  lemma RetractRemovesRecord(g: Gov, env: Env, tokens: Tokens, caller: Address, id: u64)
    ensures var r := Result(g, env, tokens, caller, id, RetractCall);
      && (r.Ok? <==> Revisable(g, env, caller, id))
      && (r.Ok? ==> r.value == g.(motions :=
            g.motions[id := g.motions[id].(ballots := g.motions[id].ballots - {caller})]))
  {
  }

  /** The record moves to another option with the weight it has. */
  lemma ChangeMovesRecord(g: Gov, env: Env, tokens: Tokens, caller: Address, id: u64, vote: Vote)
    ensures var r := Result(g, env, tokens, caller, id, ChangeCall(vote));
      && (r.Ok? <==>
            && Revisable(g, env, caller, id) && g.motions[id].ballots[caller].vote != vote
            && g.motions[id].Weight(vote) + g.motions[id].ballots[caller].weight <= I128_MAX)
      && (r.Ok? ==>
            && id < |g.motions| && caller in g.motions[id].ballots
            && var m := g.motions[id];
               r.value == g.(motions := g.motions[id := m.(
                 ballots := m.ballots[caller := VoteRecord(vote, m.ballots[caller].weight)])]))
  {
  }

  // ------------------------------------------------------------------ closing

  /** What the ballots decide: the question without choices by quorum and majority, a multi-choice one by the Yes
      weight alone. */
  ghost predicate Carries(m: Motion) {
    if m.choiceVotes == []
    then m.Weight(Yes) + m.Weight(No) + m.Weight(Abstain) >= m.quorum && m.Weight(Yes) > m.Weight(No)
    else m.Weight(Yes) >= m.quorum
  }

  /** The motion after its vote was decided: Passed or Rejected, with a winner if it passed and has choices, and
      otherwise as it was. */
  ghost predicate DecidedAs(m: Motion, m': Motion) {
    && m'.state == (if Carries(m) then Passed else Rejected)
    && m' == m.(state := m'.state, winner := m'.winner)
    && (if Carries(m) && m.choiceVotes != []
        then m'.winner.Some? && FirstPastThePost(m.choiceVotes, m'.winner.value)
        else m'.winner == m.winner)
  }

  lemma DecideDecides(m: Motion)
    ensures DecidedAs(m, Decide(m))
  {
  }

  /** Anybody finalises an Active motion after its end, and the ballots decide. */
  lemma FinaliseDecides(g: Gov, env: Env, tokens: Tokens, caller: Address, id: u64)
    ensures var r := Result(g, env, tokens, caller, id, FinaliseCall);
      && (r.Ok? <==>
            && InService(g) && ActiveAt(g, id) && env.now > g.motions[id].endTime
            && g.motions[id].Weight(Yes) + g.motions[id].Weight(No) + g.motions[id].Weight(Abstain) <= I128_MAX)
      && (r.Ok? ==>
            && id < |g.motions| && id < |r.value.motions| && DecidedAs(g.motions[id], r.value.motions[id])
            && r.value == g.(motions := g.motions[id := r.value.motions[id]]))
  {
  }

  /** Only the admin cancels, with a reason, and only Active motions. */
  lemma CancelIsTheAdmins(g: Gov, env: Env, tokens: Tokens, caller: Address, id: u64, reason: Option<string>)
    ensures var r := Result(g, env, tokens, caller, id, CancelCall(reason));
      && (r.Ok? <==> g.config.admin == Some(caller) && ActiveAt(g, id))
      && (r.Ok? ==> r.value == g.(motions :=
            g.motions[id := g.motions[id].(state := Cancelled, cancellationReason := reason)]))
  {
  }

  /** No more than a tenth of the voting period is over. */
  predicate InFirstTenth(m: Motion, now: u64) {
    10 * (now - m.startTime) <= (if m.endTime > m.startTime then m.endTime - m.startTime else 0)
  }

  lemma DeadlineIsTenth(m: Motion, now: u64)
    ensures now <= QuorumDeadline(m) <==> InFirstTenth(m, now)
  {
  }

  /** Only the admin changes the quorum, in the first tenth of the period, within the supply. */
  lemma UpdateSetsQuorum(g: Gov, env: Env, tokens: Tokens, caller: Address, id: u64, quorum: i128)
    ensures var r := Result(g, env, tokens, caller, id, UpdateQuorumCall(quorum));
      && (r.Ok? <==>
            && g.config.admin == Some(caller) && TokenAnswers(g, tokens)
            && 0 < quorum <= tokens[g.config.votingToken.value].Supply()
            && ActiveAt(g, id) && InFirstTenth(g.motions[id], env.now))
      && (r.Ok? ==> r.value == g.(motions := g.motions[id := g.motions[id].(quorum := quorum)]))
  {
    if id < |g.motions| { DeadlineIsTenth(g.motions[id], env.now); }
  }

  /** The mark an execution leaves; whether the payout went through is `paid`. */
  lemma ExecuteMarks(g: Gov, env: Env, tokens: Tokens, paid: bool, caller: Address, id: u64)
    ensures var r := Step(g, env, tokens, paid, caller, On(id, ExecuteCall));
      && (r.Ok? <==>
            && g.config.admin == Some(caller) && id < |g.motions| && g.motions[id].state == Passed
            && (g.config.treasury.Some? && g.motions[id].action.Some? ==> paid))
      && (r.Ok? ==> r.value == g.(motions := g.motions[id := g.motions[id].(state := Executed)]))
  {
  }

  // ------------------------------------------------------------------ configuration

  /** The caller holds the admin role. */
  predicate IsAdmin(c: Config, caller: Address) {
    c.admin == Some(caller)
  }

  /** What a configuration call asks. */
  ghost predicate Permitted(g: Gov, caller: Address, setting: ConfigCall) {
    match setting
    case InitializeCall(_, _, _, _, _, _, _) => !g.config.ready
    case ProposeAdminCall(newAdmin) => IsAdmin(g.config, caller) && newAdmin != Zero
    case AcceptAdminCall => g.config.pendingAdmin == Some(caller) && g.config.admin.Some?
    case CancelAdminTransferCall => IsAdmin(g.config, caller) && g.config.pendingAdmin.Some?
    case UpdateVotingTokenCall(_) => IsAdmin(g.config, caller) && ActiveIds(g.motions) == {}
    case SetPausedCall(on) => IsAdmin(g.config, caller) && g.config.paused != on
    case SetMinBalanceCall(value) => IsAdmin(g.config, caller) && value >= 0
    case SetCooldownCall(_) => IsAdmin(g.config, caller)
    case SetRestrictAdminVoteCall(_) => IsAdmin(g.config, caller)
  }

  /** What it sets, and nothing else. */
  ghost predicate Sets(c: Config, c': Config, caller: Address, setting: ConfigCall) {
    match setting
    case InitializeCall(admin, token, minBalance, cooldown, bps, restrictAdmin, treasury) =>
      && c'.admin == Some(admin) && c'.votingToken == Some(token) && c'.treasury == treasury
      && c'.minProposalBalance == minBalance && c'.proposalCooldown == cooldown && c'.minQuorumBps == bps
      && c'.restrictAdminVote == restrictAdmin && c'.ready && !c'.paused && c'.pendingAdmin == c.pendingAdmin
    case ProposeAdminCall(newAdmin) => c' == c.(pendingAdmin := Some(newAdmin))
    case AcceptAdminCall => c' == c.(admin := Some(caller), pendingAdmin := None)
    case CancelAdminTransferCall => c' == c.(pendingAdmin := None)
    case UpdateVotingTokenCall(token) => c' == c.(votingToken := Some(token))
    case SetPausedCall(on) => c' == c.(paused := on)
    case SetMinBalanceCall(value) => c' == c.(minProposalBalance := value)
    case SetCooldownCall(seconds) => c' == c.(proposalCooldown := seconds)
    case SetRestrictAdminVoteCall(flag) => c' == c.(restrictAdminVote := flag)
  }

  lemma SettingPermitted(g: Gov, caller: Address, setting: ConfigCall)
    ensures StepConfig(g, caller, setting).Ok? <==> Permitted(g, caller, setting)
  {
    ActiveCountIs(g.motions);
  }

  lemma SettingSets(g: Gov, caller: Address, setting: ConfigCall)
    requires StepConfig(g, caller, setting).Ok?
    ensures var g' := StepConfig(g, caller, setting).value;
      g'.motions == g.motions && Sets(g.config, g'.config, caller, setting)
  {
  }

  /** A configuration call succeeds exactly when permitted, sets what it names and leaves the motions alone. */
  lemma SettingsTakeEffect(g: Gov, env: Env, tokens: Tokens, caller: Address, setting: ConfigCall)
    ensures var r := Step(g, env, tokens, false, caller, Configure(setting));
      && (r.Ok? <==> Permitted(g, caller, setting))
      && (r.Ok? ==> r.value.motions == g.motions && Sets(g.config, r.value.config, caller, setting))
  {
    SettingPermitted(g, caller, setting);
    if StepConfig(g, caller, setting).Ok? { SettingSets(g, caller, setting); }
  }

  // ------------------------------------------------------------------ refusals

  // For each call, what every error code it may return says of the state, the caller and the arguments.

  predicate NotServing(g: Gov, e: Error) {
    (e == NotInitialized && !g.config.ready) || (e == ContractPaused && g.config.paused)
  }

  predicate NotForCaller(g: Gov, caller: Address, e: Error) {
    e == NotAdmin && g.config.admin.Some? && g.config.admin != Some(caller)
  }

  predicate BadText(title: string, description: string, e: Error) {
    || (e == InvalidTitle && (|title| == 0 || |title| > 128))
    || (e == InvalidDescription && (|description| == 0 || |description| > 1024))
  }

  predicate BadDraft(d: Draft, e: Error) {
    || BadText(d.title, d.description, e)
    || (e == InvalidLink && d.link.Some? && (|d.link.value| == 0 || |d.link.value| > 256))
    || (e == InvalidQuorum && d.quorum <= 0)
    || (e == InvalidDurationRange && (d.duration < 60 || d.duration > 2_592_000))
  }

  ghost predicate Unsupported(g: Gov, env: Env, token: TokenSpec.Token, proposer: Address, quorum: i128, e: Error) {
    || (e == QuorumExceedsSupply && quorum > token.Supply())
    || (e == ArithmeticOverflow && token.Supply() * g.config.minQuorumBps > I128_MAX)
    || (e == QuorumBelowFloor && quorum < token.Supply() * g.config.minQuorumBps / 10_000)
    || (e == InsufficientBalance && token.Balance(proposer) < g.config.minProposalBalance)
    || (e == ProposalCooldown && !Rested(g.motions, proposer, g.config.proposalCooldown, env.now))
  }

  ghost predicate CreateRefused(g: Gov, env: Env, tokens: Tokens, caller: Address, d: Draft, e: Error) {
    || NotServing(g, e)
    || BadDraft(d, e)
    || (e == ProposalsStillActive && |ActiveIds(g.motions)| >= 50)
    || (TokenAnswers(g, tokens) && Unsupported(g, env, tokens[g.config.votingToken.value], caller, d.quorum, e))
  }

  lemma StandingRefusal(g: Gov, env: Env, token: TokenSpec.Token, proposer: Address, quorum: i128, e: Error)
    requires Standing(g, env, token, proposer, quorum) == Fail(e)
    ensures Unsupported(g, env, token, proposer, quorum, e)
  {
    RestedIs(g, proposer, env.now);
  }

  lemma DraftRefusal(d: Draft, e: Error)
    requires CheckDraft(d) == Fail(e)
    ensures BadDraft(d, e)
  {
  }

  lemma TableRefusal(g: Gov, env: Env, tokens: Tokens, caller: Address, d: Draft, e: Error)
    requires Table(g, env, tokens, caller, d) == Err(e)
    ensures TokenAnswers(g, tokens) && Unsupported(g, env, tokens[g.config.votingToken.value], caller, d.quorum, e)
  {
    StandingRefusal(g, env, tokens[g.config.votingToken.value], caller, d.quorum, e);
  }

  lemma CreateRefusalIsTrue(g: Gov, env: Env, tokens: Tokens, caller: Address, d: Draft, e: Error)
    requires Step(g, env, tokens, false, caller, Create(d)) == Err(e)
    ensures CreateRefused(g, env, tokens, caller, d, e)
  {
    ActiveCountIs(g.motions);
    if CheckDraft(d).Fail? { DraftRefusal(d, CheckDraft(d).error); }
    if Table(g, env, tokens, caller, d) == Err(e) { TableRefusal(g, env, tokens, caller, d, e); }
  }

  /** The motion is not there, or not in the state the call is for. */
  predicate NotAt(g: Gov, id: nat, state: ProposalState, missed: Error, e: Error) {
    || (e == ProposalNotFound && id >= |g.motions|)
    || (e == missed && id < |g.motions| && g.motions[id].state != state)
  }

  predicate BallotRefused(g: Gov, env: Env, caller: Address, id: nat, e: Error) {
    || NotServing(g, e)
    || NotAt(g, id, Active, ProposalNotActive, e)
    || (id < |g.motions| && var m := g.motions[id];
        || (e == VotingNotStarted && env.now < m.startTime)
        || (e == VotingPeriodEnded && env.now > m.endTime)
        || (e == AlreadyVoted && caller in m.ballots)
        || (e == AdminVoteRestricted && g.config.restrictAdminVote && g.config.admin == Some(caller)
            && m.proposer == caller))
  }

  lemma BallotRefusal(g: Gov, env: Env, caller: Address, id: nat, e: Error)
    requires CheckBallot(g, env, caller, id) == Fail(e)
    ensures BallotRefused(g, env, caller, id, e)
  {
  }

  ghost predicate CastRefused(g: Gov, env: Env, tokens: Tokens, caller: Address, id: nat, vote: Vote, e: Error) {
    || BallotRefused(g, env, caller, id, e)
    || (id < |g.motions| && TokenAnswers(g, tokens) &&
        var (m, token) := (g.motions[id], tokens[g.config.votingToken.value]);
        || (e == NoVotingPower && (caller in token.delegations || token.Balance(caller) <= 0))
        || (e == ArithmeticOverflow && m.Weight(vote) + token.Balance(caller) > I128_MAX))
  }

  lemma CastRefusalIsTrue(g: Gov, env: Env, tokens: Tokens, caller: Address, id: u64, vote: Vote, e: Error)
    requires Result(g, env, tokens, caller, id, CastCall(vote)) == Err(e)
    ensures CastRefused(g, env, tokens, caller, id, vote, e)
  {
    if CheckBallot(g, env, caller, id) != Pass { BallotRefusal(g, env, caller, id, e); }
  }

  predicate RevisionRefused(g: Gov, env: Env, caller: Address, id: nat, e: Error) {
    || NotServing(g, e)
    || NotAt(g, id, Active, ProposalNotActive, e)
    || (id < |g.motions| && e == VotingPeriodEnded && env.now > g.motions[id].endTime)
    || (id < |g.motions| && e == VoteNotFound && caller !in g.motions[id].ballots)
  }

  lemma RevisionRefusal(g: Gov, env: Env, caller: Address, id: nat, e: Error)
    requires CheckRevision(g, env, caller, id) == Fail(e)
    ensures RevisionRefused(g, env, caller, id, e)
  {
  }

  lemma RetractRefusalIsTrue(g: Gov, env: Env, tokens: Tokens, caller: Address, id: u64, e: Error)
    requires Result(g, env, tokens, caller, id, RetractCall) == Err(e)
    ensures RevisionRefused(g, env, caller, id, e)
  {
    RevisionRefusal(g, env, caller, id, e);
  }

  ghost predicate ChangeRefused(g: Gov, env: Env, caller: Address, id: nat, vote: Vote, e: Error) {
    || RevisionRefused(g, env, caller, id, e)
    || (id < |g.motions| && caller in g.motions[id].ballots &&
        var (m, r) := (g.motions[id], g.motions[id].ballots[caller]);
        || (e == VoteAlreadySame && r.vote == vote)
        || (e == ArithmeticOverflow && m.Weight(vote) + r.weight > I128_MAX))
  }

  lemma ChangeRefusalIsTrue(g: Gov, env: Env, tokens: Tokens, caller: Address, id: u64, vote: Vote, e: Error)
    requires Result(g, env, tokens, caller, id, ChangeCall(vote)) == Err(e)
    ensures ChangeRefused(g, env, caller, id, vote, e)
  {
    if CheckRevision(g, env, caller, id) != Pass { RevisionRefusal(g, env, caller, id, e); }
  }

  ghost predicate AmendRefused(g: Gov, caller: Address, id: nat, title: string, description: string, e: Error) {
    || NotServing(g, e)
    || NotAt(g, id, Active, ProposalNotActive, e)
    || BadText(title, description, e)
    || (id < |g.motions| && var m := g.motions[id];
        || (e == NotProposer && m.proposer != caller)
        || (e == VotesAlreadyCast && m.ballots != map[])
        || (e == ArithmeticOverflow && m.Weight(Yes) + m.Weight(No) + m.Weight(Abstain) > I128_MAX))
  }

  lemma AmendRefusalIsTrue(g: Gov, env: Env, tokens: Tokens, caller: Address, id: u64, title: string,
                           description: string, e: Error)
    requires id < |g.motions| ==> PositiveWeights(g.motions[id])
    requires Result(g, env, tokens, caller, id, AmendCall(title, description)) == Err(e)
    ensures AmendRefused(g, caller, id, title, description, e)
  {
    AmendEnds(g, caller, id, title, description);
    if id < |g.motions| { TotalZeroIffNoBallot(g.motions[id]); }
  }

  lemma AmendEnds(g: Gov, caller: Address, id: u64, title: string, description: string)
    ensures var r := AmendProposal(g, caller, id, title, description);
      if g.Ready() != Pass then r == g.Ready().PropagateFailure()
      else if id >= |g.motions| then r == Err(ProposalNotFound)
      else
        var m := g.motions[id];
        if m.proposer != caller then r == Err(NotProposer)
        else if m.state != Active then r == Err(ProposalNotActive)
        else if m.Total() > I128_MAX then r == Err(ArithmeticOverflow)
        else if m.Total() > 0 then r == Err(VotesAlreadyCast)
        else if |title| == 0 || |title| > 128 then r == Err(InvalidTitle)
        else if |description| == 0 || |description| > 1024 then r == Err(InvalidDescription)
        else r == Ok(g.(motions := g.motions[id := m.(title := title, description := description)]))
  {
  }

  ghost predicate FinaliseRefused(g: Gov, env: Env, id: nat, e: Error) {
    || NotServing(g, e)
    || NotAt(g, id, Active, ProposalNotActive, e)
    || (id < |g.motions| && var m := g.motions[id];
        || (e == VotingStillOpen && env.now <= m.endTime)
        || (e == ArithmeticOverflow && m.Weight(Yes) + m.Weight(No) + m.Weight(Abstain) > I128_MAX))
  }

  lemma FinaliseRefusalIsTrue(g: Gov, env: Env, tokens: Tokens, caller: Address, id: u64, e: Error)
    requires Result(g, env, tokens, caller, id, FinaliseCall) == Err(e)
    ensures FinaliseRefused(g, env, id, e)
  {
  }

  ghost predicate UpdateRefused(g: Gov, env: Env, tokens: Tokens, caller: Address, id: nat, quorum: i128, e: Error) {
    || NotForCaller(g, caller, e)
    || NotAt(g, id, Active, ProposalNotActive, e)
    || (e == InvalidQuorum && quorum <= 0)
    || (e == QuorumExceedsSupply && TokenAnswers(g, tokens) && quorum > tokens[g.config.votingToken.value].Supply())
    || (e == QuorumUpdateNotAllowed && id < |g.motions| && !InFirstTenth(g.motions[id], env.now))
  }

  lemma RequorumRefusal(g: Gov, env: Env, id: u64, quorum: i128, e: Error)
    requires Requorum(g, env, id, quorum) == Err(e)
    ensures NotAt(g, id, Active, ProposalNotActive, e) ||
      (e == QuorumUpdateNotAllowed && id < |g.motions| && !InFirstTenth(g.motions[id], env.now))
  {
    if id < |g.motions| { DeadlineIsTenth(g.motions[id], env.now); }
  }

  lemma UpdateRefusalIsTrue(g: Gov, env: Env, tokens: Tokens, caller: Address, id: u64, quorum: i128, e: Error)
    requires Result(g, env, tokens, caller, id, UpdateQuorumCall(quorum)) == Err(e)
    ensures UpdateRefused(g, env, tokens, caller, id, quorum, e)
  {
    if Requorum(g, env, id, quorum) == Err(e) { RequorumRefusal(g, env, id, quorum, e); }
  }

  lemma AdminRefusalIsTrue(g: Gov, env: Env, tokens: Tokens, caller: Address, id: u64, act: MotionCall, e: Error)
    requires act.CancelCall? || act.ExecuteCall?
    requires Result(g, env, tokens, caller, id, act) == Err(e)
    ensures
      || NotForCaller(g, caller, e)
      || (if act.CancelCall? then NotAt(g, id, Active, ProposalNotActive, e)
          else NotAt(g, id, Passed, ProposalNotPassed, e))
  {
  }

  ghost predicate SettingRefused(g: Gov, caller: Address, setting: ConfigCall, e: Error) {
    match setting
    case InitializeCall(_, _, _, _, _, _, _) => e == AlreadyInitialized && g.config.ready
    case AcceptAdminCall =>
      || (e == NoPendingAdmin && g.config.pendingAdmin.None?)
      || (e == NotPendingAdmin && g.config.pendingAdmin.Some? && g.config.pendingAdmin != Some(caller))
    case ProposeAdminCall(newAdmin) => NotForCaller(g, caller, e) || (e == InvalidNewAdmin && newAdmin == Zero)
    case CancelAdminTransferCall => NotForCaller(g, caller, e) || (e == NoPendingAdmin && g.config.pendingAdmin.None?)
    case UpdateVotingTokenCall(_) =>
      NotForCaller(g, caller, e) || (e == ProposalsStillActive && ActiveIds(g.motions) != {})
    case SetPausedCall(on) =>
      NotForCaller(g, caller, e) || (g.config.paused == on && e == if on then ContractPaused else NotPaused)
    case SetMinBalanceCall(value) => NotForCaller(g, caller, e) || (e == InsufficientBalance && value < 0)
    case SetCooldownCall(_) => NotForCaller(g, caller, e)
    case SetRestrictAdminVoteCall(_) => NotForCaller(g, caller, e)
  }

  lemma HandoverRefusal(g: Gov, caller: Address, setting: ConfigCall, e: Error)
    requires setting.ProposeAdminCall? || setting.AcceptAdminCall? || setting.CancelAdminTransferCall?
    requires StepConfig(g, caller, setting) == Err(e)
    ensures SettingRefused(g, caller, setting, e)
  {
  }

  lemma TokenRefusal(g: Gov, caller: Address, token: Address, e: Error)
    requires StepConfig(g, caller, UpdateVotingTokenCall(token)) == Err(e)
    ensures SettingRefused(g, caller, UpdateVotingTokenCall(token), e)
  {
    ActiveCountIs(g.motions);
  }

  lemma OtherSettingRefusal(g: Gov, caller: Address, setting: ConfigCall, e: Error)
    requires !setting.ProposeAdminCall? && !setting.AcceptAdminCall? && !setting.CancelAdminTransferCall?
    requires !setting.UpdateVotingTokenCall? && StepConfig(g, caller, setting) == Err(e)
    ensures SettingRefused(g, caller, setting, e)
  {
  }

  lemma SettingRefusalIsTrue(g: Gov, env: Env, tokens: Tokens, caller: Address, setting: ConfigCall, e: Error)
    requires Step(g, env, tokens, false, caller, Configure(setting)) == Err(e)
    ensures SettingRefused(g, caller, setting, e)
  {
    if setting.ProposeAdminCall? || setting.AcceptAdminCall? || setting.CancelAdminTransferCall? {
      HandoverRefusal(g, caller, setting, e);
    } else if setting.UpdateVotingTokenCall? {
      TokenRefusal(g, caller, setting.token, e);
    } else {
      OtherSettingRefusal(g, caller, setting, e);
    }
  }

  /** What an error code means for the call that returned it. */
  ghost predicate Grounds(g: Gov, env: Env, tokens: Tokens, caller: Address, call: GovCall, e: Error) {
    match call
    case Create(d) => CreateRefused(g, env, tokens, caller, d, e)
    case Configure(setting) => SettingRefused(g, caller, setting, e)
    case On(id, CastCall(vote)) => CastRefused(g, env, tokens, caller, id, vote, e)
    case On(id, RetractCall) => RevisionRefused(g, env, caller, id, e)
    case On(id, ChangeCall(vote)) => ChangeRefused(g, env, caller, id, vote, e)
    case On(id, AmendCall(title, description)) => AmendRefused(g, caller, id, title, description, e)
    case On(id, FinaliseCall) => FinaliseRefused(g, env, id, e)
    case On(id, UpdateQuorumCall(quorum)) => UpdateRefused(g, env, tokens, caller, id, quorum, e)
    case On(id, CancelCall(_)) => NotForCaller(g, caller, e) || NotAt(g, id, Active, ProposalNotActive, e)
    case On(id, ExecuteCall) => NotForCaller(g, caller, e) || NotAt(g, id, Passed, ProposalNotPassed, e)
  }

  /** Every error code is true: it names a condition of the call that really failed. */
  lemma RefusalsAreTrue(g: Gov, env: Env, tokens: Tokens, caller: Address, call: GovCall, e: Error)
    requires GovOk(g) && Step(g, env, tokens, false, caller, call) == Err(e)
    ensures Grounds(g, env, tokens, caller, call, e)
  {
    match call
    case Create(d) => CreateRefusalIsTrue(g, env, tokens, caller, d, e);
    case Configure(setting) => SettingRefusalIsTrue(g, env, tokens, caller, setting, e);
    case On(id, CastCall(vote)) => CastRefusalIsTrue(g, env, tokens, caller, id, vote, e);
    case On(id, RetractCall) => RetractRefusalIsTrue(g, env, tokens, caller, id, e);
    case On(id, ChangeCall(vote)) => ChangeRefusalIsTrue(g, env, tokens, caller, id, vote, e);
    case On(id, AmendCall(title, description)) =>
      assert id < |g.motions| ==> MotionOk(g.motions[id]);
      AmendRefusalIsTrue(g, env, tokens, caller, id, title, description, e);
    case On(id, FinaliseCall) => FinaliseRefusalIsTrue(g, env, tokens, caller, id, e);
    case On(id, UpdateQuorumCall(quorum)) => UpdateRefusalIsTrue(g, env, tokens, caller, id, quorum, e);
    case On(id, CancelCall(reason)) => AdminRefusalIsTrue(g, env, tokens, caller, id, CancelCall(reason), e);
    case On(id, ExecuteCall) => AdminRefusalIsTrue(g, env, tokens, caller, id, ExecuteCall, e);
  }

  // ------------------------------------------------------------------ panics

  /** What a call may panic at: a voting token that does not answer, an admin that was never set, a sum of
      times or a count past its type, a payout that failed. */
  ghost predicate Panics(g: Gov, env: Env, tokens: Tokens, paid: bool, caller: Address, call: GovCall) {
    match call
    case Create(d) =>
      || !TokenAnswers(g, tokens) || env.now + d.duration > U64_MAX || |g.motions| >= U64_MAX
      || (exists i: nat :: Newest(g.motions, caller, i)
            && g.motions[i].startTime + g.config.proposalCooldown > U64_MAX)
    case On(id, CastCall(_)) => !TokenAnswers(g, tokens) || (id < |g.motions| && g.motions[id].voterCount == U32_MAX)
    case On(_, UpdateQuorumCall(_)) => g.config.admin.None? || !TokenAnswers(g, tokens)
    case On(_, CancelCall(_)) => g.config.admin.None?
    case On(id, ExecuteCall) =>
      g.config.admin.None? || (id < |g.motions| && g.config.treasury.Some? && g.motions[id].action.Some? && !paid)
    case On(_, _) => false
    case Configure(InitializeCall(_, _, _, _, _, _, _)) => false
    case Configure(_) => g.config.admin.None?
  }

  lemma CreatePanics(g: Gov, env: Env, tokens: Tokens, paid: bool, caller: Address, d: Draft)
    requires Step(g, env, tokens, paid, caller, Create(d)).Trap?
    ensures Panics(g, env, tokens, paid, caller, Create(d))
  {
    LatestStartIs(g.motions, caller);
  }

  lemma VoterPanics(g: Gov, env: Env, tokens: Tokens, paid: bool, caller: Address, id: u64, act: MotionCall)
    requires act.CastCall? || act.RetractCall? || act.ChangeCall?
    requires Step(g, env, tokens, paid, caller, On(id, act)).Trap?
    ensures Panics(g, env, tokens, paid, caller, On(id, act))
  {
  }

  lemma MotionPanics(g: Gov, env: Env, tokens: Tokens, paid: bool, caller: Address, id: u64, act: MotionCall)
    requires !act.CastCall? && !act.RetractCall? && !act.ChangeCall?
    requires Step(g, env, tokens, paid, caller, On(id, act)).Trap?
    ensures Panics(g, env, tokens, paid, caller, On(id, act))
  {
  }

  lemma SettingPanics(g: Gov, env: Env, tokens: Tokens, paid: bool, caller: Address, setting: ConfigCall)
    requires Step(g, env, tokens, paid, caller, Configure(setting)).Trap?
    ensures Panics(g, env, tokens, paid, caller, Configure(setting))
  {
  }

  /** A call panics for no other reason. */
  lemma PanicsAreAccountedFor(g: Gov, env: Env, tokens: Tokens, paid: bool, caller: Address, call: GovCall)
    requires Step(g, env, tokens, paid, caller, call).Trap?
    ensures Panics(g, env, tokens, paid, caller, call)
  {
    match call
    case Create(d) => CreatePanics(g, env, tokens, paid, caller, d);
    case Configure(setting) => SettingPanics(g, env, tokens, paid, caller, setting);
    case On(id, act) =>
      if act.CastCall? || act.RetractCall? || act.ChangeCall? {
        VoterPanics(g, env, tokens, paid, caller, id, act);
      } else {
        MotionPanics(g, env, tokens, paid, caller, id, act);
      }
  }
}
