/** One-step laws of the governance contract: every successful call moves each motion by one of
    nine events, and each event keeps what the protocol relies on. */
module GovernanceLaws {
  import opened Host
  import opened MapSum
  import opened GovernanceSpec
  import TokenSpec

  // ------------------------------------------------------------------ ballots and tallies

  lemma PutBallot(m: Motion, voter: Address, r: VoteRecord, v: Vote)
    ensures m.(ballots := m.ballots[voter := r]).Weight(v) ==
      m.Weight(v) - (if voter in m.ballots then WeightFor(v)(m.ballots[voter]) else 0) + WeightFor(v)(r)
  {
    Put(m.ballots, voter, r, WeightFor(v));
  }

  lemma DropBallot(m: Motion, voter: Address, v: Vote)
    requires voter in m.ballots
    ensures m.(ballots := m.ballots - {voter}).Weight(v) == m.Weight(v) - WeightFor(v)(m.ballots[voter])
  {
    TakeOut(m.ballots, voter, WeightFor(v));
  }

  predicate PositiveWeights(m: Motion) {
    forall a :: a in m.ballots ==> m.ballots[a].weight > 0
  }

  lemma WeightsNonNegative(m: Motion)
    requires PositiveWeights(m)
    ensures forall v :: 0 <= m.Weight(v)
    ensures forall a :: a in m.ballots ==> m.ballots[a].weight <= m.Weight(m.ballots[a].vote)
  {
    forall v ensures 0 <= m.Weight(v) {
      AtLeastEach(m.ballots, WeightFor(v));
    }
    forall a | a in m.ballots
      ensures m.ballots[a].weight <= m.Weight(m.ballots[a].vote)
    {
      AtLeastEach(m.ballots, WeightFor(m.ballots[a].vote));
      assert WeightFor(m.ballots[a].vote)(m.ballots[a]) == m.ballots[a].weight;
    }
  }

  /** No record is heavier than the tally it counts towards. */
  lemma RecordWithinTally(m: Motion, a: Address)
    requires PositiveWeights(m) && a in m.ballots
    ensures m.ballots[a].weight <= m.Weight(m.ballots[a].vote)
  {
    WeightsNonNegative(m);
  }

  /** The three tallies add up to the weight of all live records. */
  lemma TotalIsSum(m: Motion)
    ensures m.Total() == Sum(m.ballots, WeightOf)
  {
    var either := (r: VoteRecord) => if r.vote == Yes || r.vote == No then r.weight as int else 0;
    Split(m.ballots, WeightFor(Yes), WeightFor(No), either);
    Split(m.ballots, either, WeightFor(Abstain), WeightOf);
  }

  /** The test amend_proposal makes on the tallies is a test for live records. */
  lemma TotalZeroIffNoBallot(m: Motion)
    requires PositiveWeights(m)
    ensures m.Total() >= 0
    ensures m.Total() == 0 <==> m.ballots == map[]
  {
    TotalIsSum(m);
    AtLeastEach(m.ballots, WeightOf);
    if m.ballots != map[] {
      var a :| a in m.ballots;
      assert WeightOf(m.ballots[a]) > 0;
    }
  }

  // ------------------------------------------------------------------ events

  datatype Event =
    | Untouched
    | Amended(title: string, description: string)
    | Voted(voter: Address, record: VoteRecord)
    | Retracted(voter: Address)
    | Changed(voter: Address, vote: Vote)
    | Decided
    | Paid
    | Withdrawn(reason: Option<string>)
    | Requorumed(quorum: i128)

  ghost predicate Allowed(m: Motion, env: Env, e: Event) {
    match e
    case Untouched => true
    case Amended(_, _) => m.state == Active && m.Total() <= 0
    case Voted(voter, r) =>
      && m.state == Active && m.startTime <= env.now <= m.endTime && voter !in m.ballots
      && r.weight > 0 && m.Weight(r.vote) + r.weight <= I128_MAX && m.voterCount < U32_MAX
    case Retracted(voter) => m.state == Active && env.now <= m.endTime && voter in m.ballots
    case Changed(voter, vote) =>
      && m.state == Active && env.now <= m.endTime && voter in m.ballots
      && m.ballots[voter].vote != vote && m.Weight(vote) + m.ballots[voter].weight <= I128_MAX
    case Decided => m.state == Active && env.now > m.endTime && m.Total() <= I128_MAX
    case Paid => m.state == Passed
    case Withdrawn(_) => m.state == Active
    case Requorumed(quorum) => m.state == Active && env.now <= QuorumDeadline(m) && quorum > 0
  }

  ghost function Effect(m: Motion, env: Env, e: Event): Motion
    requires Allowed(m, env, e)
  {
    match e
    case Untouched => m
    case Amended(title, description) => m.(title := title, description := description)
    case Voted(voter, r) => m.(ballots := m.ballots[voter := r], voterCount := m.voterCount + 1)
    case Retracted(voter) => m.(ballots := m.ballots - {voter})
    case Changed(voter, vote) => m.(ballots := m.ballots[voter := VoteRecord(vote, m.ballots[voter].weight)])
    case Decided => Decide(m)
    case Paid => m.(state := Executed)
    case Withdrawn(reason) => m.(state := Cancelled, cancellationReason := reason)
    case Requorumed(quorum) => m.(quorum := quorum)
  }

  /** What a call addressed to motion m does to it. */
  function EventOf(g: Gov, tokens: map<Address, TokenSpec.Token>, caller: Address, act: MotionCall): Event {
    match act
    case AmendCall(title, description) => Amended(title, description)
    case CastCall(vote) =>
      var token := VotingToken(g, tokens);
      Voted(caller, VoteRecord(vote, if token.Some? then token.value.Balance(caller) else 0))
    case RetractCall => Retracted(caller)
    case ChangeCall(vote) => Changed(caller, vote)
    case FinaliseCall => Decided
    case ExecuteCall => Paid
    case CancelCall(reason) => Withdrawn(reason)
    case UpdateQuorumCall(quorum) => Requorumed(quorum)
  }

  /** What any call does to motion i. */
  function EventOn(g: Gov, tokens: map<Address, TokenSpec.Token>, caller: Address, call: GovCall, i: nat): Event {
    if call.On? && call.id == i then EventOf(g, tokens, caller, call.act) else Untouched
  }

  /** How moving a vote ends: in the changed motion, if the other tally can hold the weight. */
  lemma ShiftEnds(g: Gov, env: Env, voter: Address, id: nat, vote: Vote)
    requires id < |g.motions| && Allowed(g.motions[id], env, Retracted(voter))
    requires g.motions[id].ballots[voter].vote != vote
    ensures var m := g.motions[id];
      var fits := m.Weight(vote) + m.ballots[voter].weight <= I128_MAX;
      && (fits ==> Allowed(m, env, Changed(voter, vote)))
      && Shift(g, voter, id, vote) ==
           if fits then Ok(g.Put(id, Effect(m, env, Changed(voter, vote)))) else Err(ArithmeticOverflow)
  {
  }

  lemma VoterShape(g: Gov, env: Env, tokens: map<Address, TokenSpec.Token>, paid: bool, caller: Address, id: u64,
                   act: MotionCall)
    requires act.CastCall? || act.RetractCall? || act.ChangeCall?
    requires StepOn(g, env, tokens, paid, caller, id, act).Ok?
    ensures id < |g.motions|
    ensures var e := EventOf(g, tokens, caller, act);
      && Allowed(g.motions[id], env, e)
      && StepOn(g, env, tokens, paid, caller, id, act).value == g.Put(id, Effect(g.motions[id], env, e))
  {
  }

  /** A successful call addressed to a motion is an allowed event on that motion and nothing else. */
  lemma OnShape(g: Gov, env: Env, tokens: map<Address, TokenSpec.Token>, paid: bool, caller: Address, id: u64,
                act: MotionCall)
    requires StepOn(g, env, tokens, paid, caller, id, act).Ok?
    ensures id < |g.motions|
    ensures var e := EventOf(g, tokens, caller, act);
      && Allowed(g.motions[id], env, e)
      && StepOn(g, env, tokens, paid, caller, id, act).value == g.Put(id, Effect(g.motions[id], env, e))
  {
    if act.CastCall? || act.RetractCall? || act.ChangeCall? {
      VoterShape(g, env, tokens, paid, caller, id, act);
    }
  }

  lemma ConfigShape(g: Gov, caller: Address, setting: ConfigCall)
    requires StepConfig(g, caller, setting).Ok?
    ensures StepConfig(g, caller, setting).value.motions == g.motions
  {
  }

  /** The shape of every successful call: old motions move by their event, and only a creation adds one. */
  lemma StepShape(g: Gov, env: Env, tokens: map<Address, TokenSpec.Token>, paid: bool, caller: Address, call: GovCall)
    requires Step(g, env, tokens, paid, caller, call).Ok?
    ensures var g' := Step(g, env, tokens, paid, caller, call).value;
      && |g'.motions| == |g.motions| + (if call.Create? then 1 else 0)
      && (!call.Configure? ==> g'.config == g.config)
      && (forall i :: 0 <= i < |g.motions| ==>
            && Allowed(g.motions[i], env, EventOn(g, tokens, caller, call, i))
            && g'.motions[i] == Effect(g.motions[i], env, EventOn(g, tokens, caller, call, i)))
  {
    match call
    case Create(_) =>
    case On(id, act) => OnShape(g, env, tokens, paid, caller, id, act);
    case Configure(setting) => ConfigShape(g, caller, setting);
  }

  // ------------------------------------------------------------------ what events keep

  /** The state of a motion agrees with its records. */
  ghost predicate DecisionMatches(m: Motion) {
    if m.choiceVotes == [] then
      && (m.state in {Passed, Executed} ==> m.Carried())
      && (m.state == Rejected ==> !m.Carried())
    else
      && (m.state in {Passed, Executed} ==>
            m.Weight(Yes) >= m.quorum && m.winner.Some? && FirstPastThePost(m.choiceVotes, m.winner.value))
      && (m.state == Rejected ==> m.Weight(Yes) < m.quorum)
  }

  ghost predicate MotionOk(m: Motion) {
    && PositiveWeights(m)
    && TalliesFit(m)
    && m.startTime < m.endTime
    && m.quorum > 0
    && DecisionMatches(m)
  }

  /** How much an event adds to the tally for v. */
  function Delta(m: Motion, e: Event, v: Vote): int {
    match e
    case Voted(_, r) => WeightFor(v)(r)
    case Retracted(voter) => if voter in m.ballots then -WeightFor(v)(m.ballots[voter]) else 0
    case Changed(voter, vote) =>
      if voter in m.ballots
      then (if v == vote then m.ballots[voter].weight as int else 0) - WeightFor(v)(m.ballots[voter]) else 0
    case _ => 0
  }

  /** A cast adds its weight to one tally, a retraction takes it away, a change moves it over. */
  lemma EventMovesTally(m: Motion, env: Env, e: Event, v: Vote)
    requires Allowed(m, env, e)
    ensures Effect(m, env, e).Weight(v) == m.Weight(v) + Delta(m, e, v)
  {
    match e
    case Voted(voter, r) => PutBallot(m, voter, r, v);
    case Retracted(voter) => DropBallot(m, voter, v);
    case Changed(voter, vote) => PutBallot(m, voter, VoteRecord(vote, m.ballots[voter].weight), v);
    case _ =>
  }

  ghost predicate TalliesFit(m: Motion) {
    forall v :: 0 <= m.Weight(v) <= I128_MAX
  }

  lemma EventKeepsPositive(m: Motion, env: Env, e: Event)
    requires PositiveWeights(m) && Allowed(m, env, e)
    ensures PositiveWeights(Effect(m, env, e))
  {
  }

  /** The guards of a cast and of a change keep every tally representable. */
  lemma EventKeepsFit(m: Motion, env: Env, e: Event, v: Vote)
    requires PositiveWeights(m) && TalliesFit(m) && Allowed(m, env, e)
    ensures m.Weight(v) + Delta(m, e, v) <= I128_MAX
  {
    assert m.Weight(v) <= I128_MAX;
  }

  lemma EventKeepsWeights(m: Motion, env: Env, e: Event)
    requires PositiveWeights(m) && TalliesFit(m) && Allowed(m, env, e)
    ensures PositiveWeights(Effect(m, env, e)) && TalliesFit(Effect(m, env, e))
  {
    EventKeepsPositive(m, env, e);
    WeightsNonNegative(Effect(m, env, e));
    forall v ensures Effect(m, env, e).Weight(v) <= I128_MAX {
      EventMovesTally(m, env, e, v);
      EventKeepsFit(m, env, e, v);
    }
  }

  lemma EventKeepsDecision(m: Motion, env: Env, e: Event)
    requires DecisionMatches(m) && Allowed(m, env, e)
    ensures DecisionMatches(Effect(m, env, e))
  {
  }

  /** voter_count goes up with every cast but never down, so the gap to the live records widens by
      one with every retraction. */
  lemma EventMovesVoterCount(m: Motion, env: Env, e: Event)
    requires Allowed(m, env, e)
    ensures var m' := Effect(m, env, e);
      m'.voterCount - |m'.ballots| == m.voterCount - |m.ballots| + (if e.Retracted? then 1 else 0)
  {
    match e
    case Voted(voter, r) => SizeAfterPut(m.ballots, voter, r);
    case Retracted(voter) => SizeAfterTakeOut(m.ballots, voter);
    case Changed(voter, vote) => SizeAfterPut(m.ballots, voter, VoteRecord(vote, m.ballots[voter].weight));
    case Decided => DecideKeepsBallots(m);
    case _ =>
  }

  lemma DecideKeepsBallots(m: Motion)
    ensures Decide(m).ballots == m.ballots && Decide(m).voterCount == m.voterCount
  {
  }

  lemma EventKeepsMotionOk(m: Motion, env: Env, e: Event)
    requires MotionOk(m) && Allowed(m, env, e)
    ensures MotionOk(Effect(m, env, e))
  {
    EventKeepsWeights(m, env, e);
    EventKeepsDecision(m, env, e);
  }

  lemma DrawnMotionOk(d: Draft, proposer: Address, env: Env)
    requires CheckDraft(d) == Pass && env.now + d.duration <= U64_MAX
    ensures MotionOk(Draw(d, proposer, env))
  {
  }

  // ------------------------------------------------------------------ the derived counters

  /** Replacing one motion moves the active count by the change of that motion alone. */
  lemma {:induction false} PutMotion(ms: seq<Motion>, i: nat, m: Motion)
    requires i < |ms|
    ensures ActiveCount(ms[i := m]) ==
      ActiveCount(ms) - (if ms[i].state == Active then 1 else 0) + (if m.state == Active then 1 else 0)
  {
    var n := |ms| - 1;
    if i == n {
      assert ms[i := m][..n] == ms[..n];
    } else {
      assert ms[i := m][..n] == ms[..n][i := m];
      PutMotion(ms[..n], i, m);
    }
  }

  /** There is an active motion exactly when the active count is positive. */
  lemma {:induction false} CountPositive(ms: seq<Motion>)
    ensures ActiveCount(ms) > 0 <==> exists i :: 0 <= i < |ms| && ms[i].state == Active
  {
    if ms != [] {
      var n := |ms| - 1;
      CountPositive(ms[..n]);
      if ms[n].state == Active {
      } else if ActiveCount(ms[..n]) > 0 {
        var i :| 0 <= i < n && ms[..n][i].state == Active;
        assert ms[i].state == Active;
      } else {
        forall i | 0 <= i < |ms| ensures ms[i].state != Active {
          if i < n { assert ms[i] == ms[..n][i]; }
        }
      }
    }
  }

  /** Changing a motion's text, terms or ballots does not touch anybody's last proposal time. */
  lemma {:induction false} PutKeepsLatest(ms: seq<Motion>, i: nat, m: Motion, p: Address)
    requires i < |ms| && m.proposer == ms[i].proposer && m.startTime == ms[i].startTime
    ensures LatestStart(ms[i := m], p) == LatestStart(ms, p)
  {
    var n := |ms| - 1;
    if i == n {
      assert ms[i := m][..n] == ms[..n];
    } else {
      assert ms[i := m][..n] == ms[..n][i := m];
      PutKeepsLatest(ms[..n], i, m, p);
    }
  }

  // ------------------------------------------------------------------ the contract invariant

  /** Initialization set the admin and the voting token; nothing else happens before it. */
  predicate ConfigOk(g: Gov) {
    && (g.config.ready <==> g.config.admin.Some?)
    && (g.config.ready <==> g.config.votingToken.Some?)
    && (!g.config.ready ==> g.motions == [] && g.config.pendingAdmin == None && g.config.treasury == None)
  }

  ghost predicate GovOk(g: Gov) {
    && (forall i {:trigger MotionOk(g.motions[i])} :: 0 <= i < |g.motions| ==> MotionOk(g.motions[i]))
    && ActiveCount(g.motions) <= 50
    && ConfigOk(g)
  }

  lemma StepKeepsCount(g: Gov, env: Env, tokens: map<Address, TokenSpec.Token>, paid: bool, caller: Address,
                       call: GovCall)
    requires ActiveCount(g.motions) <= 50 && Step(g, env, tokens, paid, caller, call).Ok?
    ensures ActiveCount(Step(g, env, tokens, paid, caller, call).value.motions) <= 50
  {
    match call
    case Create(draft) =>
      assert Step(g, env, tokens, paid, caller, call).value.motions[..|g.motions|] == g.motions;
    case On(id, act) =>
      OnShape(g, env, tokens, paid, caller, id, act);
      PutMotion(g.motions, id, Effect(g.motions[id], env, EventOf(g, tokens, caller, act)));
    case Configure(setting) =>
      ConfigShape(g, caller, setting);
  }

  lemma ConfigKeepsConfigOk(g: Gov, caller: Address, setting: ConfigCall)
    requires ConfigOk(g) && StepConfig(g, caller, setting).Ok?
    ensures ConfigOk(StepConfig(g, caller, setting).value)
  {
  }

  lemma ConfigKeepsGovOk(g: Gov, caller: Address, setting: ConfigCall)
    requires GovOk(g) && StepConfig(g, caller, setting).Ok?
    ensures GovOk(StepConfig(g, caller, setting).value)
  {
    ConfigShape(g, caller, setting);
    ConfigKeepsConfigOk(g, caller, setting);
  }

  lemma OnKeepsGovOk(g: Gov, env: Env, tokens: map<Address, TokenSpec.Token>, paid: bool, caller: Address, id: u64,
                     act: MotionCall)
    requires GovOk(g) && StepOn(g, env, tokens, paid, caller, id, act).Ok?
    ensures GovOk(StepOn(g, env, tokens, paid, caller, id, act).value)
  {
    StepKeepsCount(g, env, tokens, paid, caller, On(id, act));
    OnShape(g, env, tokens, paid, caller, id, act);
    EventKeepsMotionOk(g.motions[id], env, EventOf(g, tokens, caller, act));
  }

  lemma CreateKeepsGovOk(g: Gov, env: Env, tokens: map<Address, TokenSpec.Token>, caller: Address, draft: Draft)
    requires GovOk(g) && CreateProposal(g, env, tokens, caller, draft).Ok?
    ensures GovOk(CreateProposal(g, env, tokens, caller, draft).value)
  {
    StepKeepsCount(g, env, tokens, false, caller, Create(draft));
    DrawnMotionOk(draft, caller, env);
  }

  lemma StepKeepsGovOk(g: Gov, env: Env, tokens: map<Address, TokenSpec.Token>, paid: bool, caller: Address,
                       call: GovCall)
    requires GovOk(g) && Step(g, env, tokens, paid, caller, call).Ok?
    ensures GovOk(Step(g, env, tokens, paid, caller, call).value)
  {
    match call
    case Create(draft) => CreateKeepsGovOk(g, env, tokens, caller, draft);
    case On(id, act) => OnKeepsGovOk(g, env, tokens, paid, caller, id, act);
    case Configure(setting) => ConfigKeepsGovOk(g, caller, setting);
  }
}
