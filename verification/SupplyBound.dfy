/** Vote weight against token supply. The contract's claim that a tally can never exceed the supply
    holds while balances stand still; because `balance_at` reads the live balance it fails once they
    move. `PeakAttained` and `TransferPeak` say exactly when it can fail. */
module SupplyBound {
  import opened Host
  import opened MapSum
  import opened SystemSpec
  import opened SystemLaws
  import opened GovernanceLaws
  import opened Lifecycle
  import opened GovernanceSpec
  import T = TokenSpec

  /** Every live record is backed by its voter's balance. */
  ghost predicate CoveredBy(t: T.Token, m: Motion) {
    forall a :: a in m.ballots ==> m.ballots[a].weight <= t.Balance(a)
  }

  lemma CoveredTallyFits(t: T.Token, m: Motion)
    requires T.NonNegative(t) && PositiveWeights(m) && CoveredBy(t, m)
    ensures m.Total() <= t.Supply()
  {
    TotalIsSum(m);
    Dominated(m.ballots, WeightOf, t.balances, T.Amount);
  }

  // ------------------------------------------------------------------ while balances stand still

  /** The token motion i is being voted with. */
  ghost predicate VotedWith(w: World, a: Address) {
    w.gov.config.votingToken == Some(a) && a in w.tokens
  }

  lemma CastWeighsBalance(w: World, tx: Tx, i: nat, a: Address)
    requires VotedWith(w, a) && Happens(w, tx, i).Voted?
    ensures Happens(w, tx, i).record.weight == w.tokens[a].Balance(Happens(w, tx, i).voter)
  {
  }

  lemma EventKeepsCover(t: T.Token, m: Motion, env: Env, e: Event)
    requires Allowed(m, env, e) && CoveredBy(t, m)
    requires e.Voted? ==> e.record.weight <= t.Balance(e.voter)
    ensures CoveredBy(t, Effect(m, env, e))
  {
  }

  lemma NextKeepsCover(ws: seq<World>, txs: seq<Tx>, j: nat, i: nat, a: Address, t: T.Token)
    requires Run(ws, txs) && j < |txs| && Exists(ws, j, i) && CoveredBy(t, MotionAt(ws, j, i))
    requires MotionAt(ws, j, i).state == Active ==> VotedWith(ws[j], a) && ws[j].tokens[a].balances == t.balances
    ensures Exists(ws, j + 1, i)
    ensures CoveredBy(t, MotionAt(ws, j + 1, i))
  {
    Next(ws, txs, j, i);
    var e := EventAt(ws, txs, j, i);
    if e.Voted? {
      assert StepAt(ws, txs, j);
      CastWeighsBalance(ws[j], txs[j], i, a);
      assert ws[j].tokens[a].Balance(e.voter) == t.Balance(e.voter);
    }
    EventKeepsCover(t, MotionAt(ws, j, i), txs[j].env, e);
  }

  /** The balances of token a are those of t at every point where motion i is Active. */
  ghost predicate FrozenFor(ws: seq<World>, j: nat, k: nat, i: nat, a: Address, t: T.Token) {
    forall n :: j <= n < k && Exists(ws, n, i) && MotionAt(ws, n, i).state == Active ==>
      a in ws[n].tokens && ws[n].tokens[a].balances == t.balances
  }

  lemma {:induction false} RunKeepsCover(ws: seq<World>, txs: seq<Tx>, j: nat, k: nat, i: nat, a: Address)
    requires Run(ws, txs) && WorldOk(ws[0]) && j <= k <= |txs| && Exists(ws, j, i)
    requires VotedWith(ws[j], a) && CoveredBy(ws[j].tokens[a], MotionAt(ws, j, i))
    requires FrozenFor(ws, j, k, i, a, ws[j].tokens[a])
    ensures Exists(ws, k, i)
    ensures CoveredBy(ws[j].tokens[a], MotionAt(ws, k, i))
    decreases k
  {
    if j < k {
      RunKeepsCover(ws, txs, j, k - 1, i, a);
      if MotionAt(ws, k - 1, i).state == Active {
        if j < k - 1 {
          Stays(ws, txs, j, k - 2, i);
          ActiveSince(ws, txs, k - 2, k - 1, i);
        }
        VotingTokenIsFixed(ws, txs, j, k - 1, i);
      }
      NextKeepsCover(ws, txs, k - 1, i, a, ws[j].tokens[a]);
    }
  }

  /** The supply bound: over any sequence of casts, changes and retractions (and anything else), if no
      balance of the voting token changes while the motion is Active, the three tallies together never
      exceed the token's supply. The motion may start empty or covered by current balances. */
  lemma VotesWithinSupply(ws: seq<World>, txs: seq<Tx>, j: nat, k: nat, i: nat, a: Address)
    requires Run(ws, txs) && WorldOk(ws[0]) && NonNegative(ws[0]) && SoundIssue(txs)
    requires j <= k <= |txs| && Exists(ws, j, i)
    requires VotedWith(ws[j], a) && CoveredBy(ws[j].tokens[a], MotionAt(ws, j, i))
    requires FrozenFor(ws, j, k, i, a, ws[j].tokens[a])
    ensures Exists(ws, k, i)
    ensures MotionAt(ws, k, i).Total() <= ws[j].tokens[a].Supply() <= I128_MAX
  {
    RunKeepsCover(ws, txs, j, k, i, a);
    RunKeepsNonNegative(ws, txs, j);
    RunKeepsWorldOk(ws, txs, k);
    assert MotionOk(MotionAt(ws, k, i));
    CoveredTallyFits(ws[j].tokens[a], MotionAt(ws, k, i));
  }

  /** A covered motion has room for the vote of anybody who has not voted. */
  lemma CoveredHasRoom(t: T.Token, m: Motion, voter: Address, vote: Vote)
    requires T.Wf(t) && T.NonNegative(t) && PositiveWeights(m) && CoveredBy(t, m)
    requires voter !in m.ballots && t.Balance(voter) > 0
    ensures m.Weight(vote) + t.Balance(voter) <= I128_MAX
  {
    var r := VoteRecord(vote, t.Balance(voter));
    var cast := m.(ballots := m.ballots[voter := r]);
    CoveredTallyFits(t, cast);
    WeightsNonNegative(cast);
    PutBallot(m, voter, r, vote);
  }

  /** Moving a vote between options stays within the total. */
  lemma CoveredCanChange(t: T.Token, m: Motion, voter: Address, vote: Vote)
    requires T.Wf(t) && T.NonNegative(t) && PositiveWeights(m) && CoveredBy(t, m)
    requires voter in m.ballots && m.ballots[voter].vote != vote
    ensures m.Weight(vote) + m.ballots[voter].weight <= I128_MAX
  {
    CoveredTallyFits(t, m);
    WeightsNonNegative(m);
    assert m.ballots[voter].weight <= m.Weight(m.ballots[voter].vote);
  }

  lemma CastNeverOverflows(g: Gov, env: Env, tokens: map<Address, T.Token>, caller: Address, id: u64, vote: Vote)
    requires id < |g.motions| && PositiveWeights(g.motions[id])
    requires VotingToken(g, tokens).Some?
    requires T.Wf(VotingToken(g, tokens).value) && T.NonNegative(VotingToken(g, tokens).value)
    requires CoveredBy(VotingToken(g, tokens).value, g.motions[id])
    ensures CastVote(g, env, tokens, caller, id, vote) != Err(ArithmeticOverflow)
  {
    var (m, t) := (g.motions[id], VotingToken(g, tokens).value);
    if caller !in m.ballots && t.Balance(caller) > 0 { CoveredHasRoom(t, m, caller, vote); }
  }

  lemma ChangeNeverOverflows(g: Gov, env: Env, t: T.Token, caller: Address, id: u64, vote: Vote)
    requires id < |g.motions| && PositiveWeights(g.motions[id])
    requires T.Wf(t) && T.NonNegative(t) && CoveredBy(t, g.motions[id])
    ensures ChangeVote(g, env, caller, id, vote) != Err(ArithmeticOverflow)
  {
    var m := g.motions[id];
    if caller in m.ballots && m.ballots[caller].vote != vote { CoveredCanChange(t, m, caller, vote); }
  }

  /** The other calls only add the tallies up. */
  lemma OthersNeverOverflow(g: Gov, env: Env, tokens: map<Address, T.Token>, paid: bool, caller: Address, id: u64,
                            act: MotionCall)
    requires id < |g.motions| && g.motions[id].Total() <= I128_MAX && !act.CastCall? && !act.ChangeCall?
    ensures StepOn(g, env, tokens, paid, caller, id, act) != Err(ArithmeticOverflow)
  {
  }

  /** Under the bound no guard against arithmetic overflow in the vote and finalise entry points can fire. */
  lemma CoveredNeverOverflows(g: Gov, env: Env, tokens: map<Address, T.Token>, paid: bool, caller: Address, id: u64,
                              act: MotionCall)
    requires id < |g.motions| && MotionOk(g.motions[id])
    requires VotingToken(g, tokens).Some?
    requires T.Wf(VotingToken(g, tokens).value) && T.NonNegative(VotingToken(g, tokens).value)
    requires CoveredBy(VotingToken(g, tokens).value, g.motions[id])
    ensures StepOn(g, env, tokens, paid, caller, id, act) != Err(ArithmeticOverflow)
  {
    match act
    case CastCall(vote) => CastNeverOverflows(g, env, tokens, caller, id, vote);
    case ChangeCall(vote) => ChangeNeverOverflows(g, env, VotingToken(g, tokens).value, caller, id, vote);
    case _ =>
      CoveredTallyFits(VotingToken(g, tokens).value, g.motions[id]);
      OthersNeverOverflow(g, env, tokens, paid, caller, id, act);
  }

  lemma ClosedNeverOverflows(g: Gov, env: Env, tokens: map<Address, T.Token>, paid: bool, caller: Address, id: u64,
                             act: MotionCall)
    requires id < |g.motions| && g.motions[id].state != Active
    ensures StepOn(g, env, tokens, paid, caller, id, act) != Err(ArithmeticOverflow)
  {
  }

  /** In the frozen stretch an Active motion is covered by today's token. */
  lemma StillCovered(ws: seq<World>, txs: seq<Tx>, j: nat, k: nat, i: nat, a: Address)
    requires Run(ws, txs) && WorldOk(ws[0]) && j <= k <= |txs| && Exists(ws, j, i) && Exists(ws, k, i)
    requires VotedWith(ws[j], a) && CoveredBy(ws[j].tokens[a], MotionAt(ws, j, i))
    requires FrozenFor(ws, j, k + 1, i, a, ws[j].tokens[a]) && MotionAt(ws, k, i).state == Active
    ensures VotedWith(ws[k], a) && CoveredBy(ws[k].tokens[a], MotionAt(ws, k, i))
  {
    RunKeepsCover(ws, txs, j, k, i, a);
    if j < k {
      Stays(ws, txs, j, k - 1, i);
      ActiveSince(ws, txs, k - 1, k, i);
    }
    VotingTokenIsFixed(ws, txs, j, k, i);
    var (t, t') := (ws[j].tokens[a], ws[k].tokens[a]);
    assert t'.balances == t.balances;
    forall b | b in MotionAt(ws, k, i).ballots ensures MotionAt(ws, k, i).ballots[b].weight <= t'.Balance(b) {
      assert t'.Balance(b) == t.Balance(b);
    }
  }

  /** The claim for whole runs: while no balance of the voting token changes during motion i's Active life, no call
      addressed to it ever ends in an arithmetic overflow. */
  lemma NoOverflowWhileFrozen(ws: seq<World>, txs: seq<Tx>, j: nat, k: nat, i: nat, a: Address, act: MotionCall)
    requires Run(ws, txs) && WorldOk(ws[0]) && NonNegative(ws[0]) && SoundIssue(txs)
    requires j <= k < |txs| && Exists(ws, j, i)
    requires VotedWith(ws[j], a) && CoveredBy(ws[j].tokens[a], MotionAt(ws, j, i))
    requires FrozenFor(ws, j, k + 1, i, a, ws[j].tokens[a])
    requires i <= U64_MAX && txs[k].call == ToGovernance(On(i, act))
    ensures Submit(ws[k], txs[k]) != Err(ArithmeticOverflow)
  {
    Stays(ws, txs, j, k, i);
    RunKeepsNonNegative(ws, txs, k);
    var (g, env, tokens, caller) := (ws[k].gov, txs[k].env, ws[k].tokens, txs[k].caller);
    if MotionAt(ws, k, i).state == Active {
      StillCovered(ws, txs, j, k, i, a);
      assert MotionOk(g.motions[i]);
      CoveredNeverOverflows(g, env, tokens, false, caller, i, act);
    } else {
      ClosedNeverOverflows(g, env, tokens, false, caller, i, act);
    }
  }

  // ------------------------------------------------------------------ how the bound breaks

  /** Address a can still cast on motion i. */
  ghost predicate Eligible(w: World, i: nat, t: T.Token, a: Address)
    requires i < |w.gov.motions|
  {
    && a.Other? && a !in w.gov.motions[i].ballots && a !in t.delegations && t.Balance(a) > 0
    && !(w.gov.config.restrictAdminVote && w.gov.config.admin == Some(a) && w.gov.motions[i].proposer == a)
  }

  /** Voting on motion i is open. */
  ghost predicate Open(w: World, env: Env, i: nat, a: Address) {
    && i < |w.gov.motions| && MotionOk(w.gov.motions[i]) && w.gov.motions[i].state == Active
    && w.gov.motions[i].startTime <= env.now <= w.gov.motions[i].endTime
    && w.gov.config.ready && !w.gov.config.paused
    && VotedWith(w, a) && T.Wf(w.tokens[a]) && T.NonNegative(w.tokens[a])
  }

  function CastTx(env: Env, caller: Address, i: u64, vote: Vote): Tx {
    Tx(env, caller, ToGovernance(On(i, CastCall(vote))))
  }

  lemma CastOutcome(w: World, env: Env, i: u64, a: Address, voter: Address, vote: Vote)
    requires Open(w, env, i, a)
    ensures var (r, m, t) := (Submit(w, CastTx(env, voter, i, vote)), w.gov.motions[i], w.tokens[a]);
      && (r.Ok? ==> Eligible(w, i, t, voter) && m.Weight(vote) + t.Balance(voter) <= I128_MAX)
      && (Eligible(w, i, t, voter) && m.Weight(vote) + t.Balance(voter) <= I128_MAX && m.voterCount < U32_MAX ==> r.Ok?)
      && (r.Ok? ==> r.value == w.(gov := w.gov.Put(i,
            m.(ballots := m.ballots[voter := VoteRecord(vote, t.Balance(voter))], voterCount := m.voterCount + 1))))
  {
  }

  /** How the bound breaks: a voter who has voted hands the tokens to a fresh address, which votes them again. */
  lemma TransferredTokensVoteTwice(w: World, env: Env, i: u64, a: Address, x: Address, y: Address)
    requires Open(w, env, i, a) && x.Other? && y.Other? && x != y && !w.tokens[a].paused && a.Other?
    requires x in w.gov.motions[i].ballots && w.gov.motions[i].ballots[x] == VoteRecord(Yes, w.tokens[a].Balance(x))
    requires y !in w.gov.motions[i].ballots && y !in w.tokens[a].delegations && w.gov.config.admin != Some(y)
    requires w.gov.motions[i].Weight(Yes) + w.tokens[a].Supply() <= I128_MAX && w.gov.motions[i].voterCount < U32_MAX
    ensures var moved := Apply(w, Tx(env, x, ToToken(a, T.TransferCall(y, w.tokens[a].Balance(x)))));
      var twice := Apply(moved, CastTx(env, y, i, Yes));
      && twice.tokens.Keys == w.tokens.Keys && twice.tokens[a].Supply() == w.tokens[a].Supply()
      && i < |twice.gov.motions|
      && twice.gov.motions[i].Weight(Yes) ==
           w.gov.motions[i].Weight(Yes) + w.tokens[a].Balance(x) + w.tokens[a].Balance(y)
  {
    var (t, m) := (w.tokens[a], w.gov.motions[i]);
    var tx := Tx(env, x, ToToken(a, T.TransferCall(y, t.Balance(x))));
    T.MoveNeverOverflows(t, x, y, t.Balance(x));
    T.MoveConserves(t, x, y, t.Balance(x));
    T.MoveKeepsNonNegative(t, x, y, t.Balance(x));
    T.TransferConserves(t, x, y, t.Balance(x));
    var moved := Apply(w, tx);
    assert moved == w.(tokens := w.tokens[a := T.Transfer(t, x, y, t.Balance(x)).value]);
    T.BalanceWithinSupply(moved.tokens[a], y);
    CastOutcome(moved, env, i, a, y, Yes);
    PutBallot(m, y, VoteRecord(Yes, moved.tokens[a].Balance(y)), Yes);
  }

  // A reachable instance, with a quorum floor of one half: Alice holds all ten tokens, opens a motion, votes, sends the
  // tokens to Bob, and Bob votes.

  const TOKEN := Other(0)
  const ALICE := Other(1)
  const BOB := Other(2)
  const METADATA := T.Metadata("Token", "TOK", 7)
  const START := Env(0, 0, false)
  const DRAFT := Draft("Title", "Text", None, 5, 60, None)

  const WORLD_0 := World(GovernanceSpec.DEPLOYED, map[TOKEN := T.DEPLOYED], Vault(None, []), [])
  const WORLD_1 := WORLD_0.(tokens := map[TOKEN := T.DEPLOYED.(
    metadata := METADATA, initialized := true, admin := Some(ALICE), balances := map[ALICE := 10])])
  const WORLD_2 := WORLD_1.(
    gov := Gov(Config(Some(ALICE), None, Some(TOKEN), None, 0, 0, 5_000, false, true, false), []))
  const WORLD_3 := WORLD_2.(gov := WORLD_2.gov.(motions := [Draw(DRAFT, ALICE, START)]))

  const TX_1 := Tx(START, ALICE, ToToken(TOKEN, T.InitializeCall(ALICE, 10, METADATA)))
  const TX_2 := Tx(START, ALICE, ToGovernance(Configure(
    ConfigCall.InitializeCall(ALICE, TOKEN, 0, 0, 5_000, false, None))))
  const TX_3 := Tx(START, ALICE, ToGovernance(Create(DRAFT)))

  lemma TenTokens()
    ensures WORLD_1.tokens[TOKEN].Supply() == 10 && Apply(WORLD_0, TX_1) == WORLD_1 && Apply(WORLD_1, TX_2) == WORLD_2
  {
    T.PutBalance(T.DEPLOYED, ALICE, 10);
  }

  lemma OneMotion()
    ensures Apply(WORLD_2, TX_3) == WORLD_3 && Open(WORLD_3, START, 0, TOKEN)
  {
    TenTokens();
    DrawnMotionOk(DRAFT, ALICE, START);
  }

  const MOTION_4 := Draw(DRAFT, ALICE, START).(ballots := map[ALICE := VoteRecord(Yes, 10)], voterCount := 1)
  const WORLD_4 := WORLD_3.(gov := WORLD_2.gov.(motions := [MOTION_4]))

  lemma TenVotes()
    ensures Apply(WORLD_3, CastTx(START, ALICE, 0, Yes)) == WORLD_4
    ensures Open(WORLD_4, START, 0, TOKEN)
  {
    OneMotion();
    TenWeigh();
    CastOutcome(WORLD_3, START, 0, TOKEN, ALICE, Yes);
    assert map[][ALICE := VoteRecord(Yes, 10)] == map[ALICE := VoteRecord(Yes, 10)];
    assert WORLD_3.gov.motions[0 := MOTION_4] == [MOTION_4];
  }

  lemma TenWeigh()
    ensures Draw(DRAFT, ALICE, START).Weight(Yes) == 0 && MOTION_4.Weight(Yes) == 10
    ensures MotionOk(MOTION_4)
  {
    var m := Draw(DRAFT, ALICE, START);
    DrawnMotionOk(DRAFT, ALICE, START);
    PutBallot(m, ALICE, VoteRecord(Yes, 10), Yes);
    PutBallot(m, ALICE, VoteRecord(Yes, 10), No);
    PutBallot(m, ALICE, VoteRecord(Yes, 10), Abstain);
    assert map[][ALICE := VoteRecord(Yes, 10)] == map[ALICE := VoteRecord(Yes, 10)];
  }

  /** Starting from deployment, ten tokens cast twenty votes. */
  lemma TwentyVotesFromTenTokens() returns (w6: World)
    ensures Genesis(WORLD_0)
    ensures var w4 := Apply(Apply(Apply(Apply(WORLD_0, TX_1), TX_2), TX_3), CastTx(START, ALICE, 0, Yes));
      w6 == Apply(Apply(w4, Tx(START, ALICE, ToToken(TOKEN, T.TransferCall(BOB, 10)))), CastTx(START, BOB, 0, Yes))
    ensures TOKEN in w6.tokens && w6.tokens[TOKEN].Supply() == 10
    ensures |w6.gov.motions| > 0 && w6.gov.motions[0].Weight(Yes) == 20
  {
    TenTokens();
    OneMotion();
    TenVotes();
    TenWeigh();
    TransferredTokensVoteTwice(WORLD_4, START, 0, TOKEN, ALICE, BOB);
    w6 := Apply(Apply(WORLD_4, Tx(START, ALICE, ToToken(TOKEN, T.TransferCall(BOB, 10)))), CastTx(START, BOB, 0, Yes));
  }
}
