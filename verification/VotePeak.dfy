/** How far voting can carry a tally. A voter may take the recorded weight back and cast again at the live
    balance, so each address reaches the larger of what it has on record and what it may cast now. The sum of
    these over all addresses, the peak, bounds the tally of every further run of votes; what transactions add to it
    bounds the tally of every run. Every cast uses up one of the voter count, so the peak of a set of addresses, with
    the others at what they have on record, tells what can still be reached when few casts are left. */
module VotePeak {
  import opened Host
  import opened MapSum
  import opened SystemSpec
  import opened SystemLaws
  import opened GovernanceLaws
  import opened GovernanceSpec
  import opened SupplyBound
  import opened Lifecycle
  import T = TokenSpec

  // ------------------------------------------------------------------ what an address reaches

  /** The checks of cast_vote on the voter, balance and record aside. */
  predicate May(g: Gov, i: nat, t: T.Token, b: Address)
    requires i < |g.motions|
  {
    && b.Other? && b !in t.delegations
    && !(g.config.restrictAdminVote && g.config.admin == Some(b) && g.motions[i].proposer == b)
  }

  function Recorded(m: Motion, b: Address): int {
    if b in m.ballots then m.ballots[b].weight else 0
  }

  function Castable(g: Gov, i: nat, t: T.Token, b: Address, balance: int): int
    requires i < |g.motions|
  {
    if May(g, i, t, b) then balance else 0
  }

  /** The larger of recorded weight and castable balance, for a given balance. */
  function ReachAt(g: Gov, i: nat, t: T.Token, b: Address, balance: int): int
    requires i < |g.motions|
  {
    var (record, castable) := (Recorded(g.motions[i], b), Castable(g, i, t, b, balance));
    if record < castable then castable else record
  }

  function Reach(g: Gov, i: nat, t: T.Token, b: Address): int
    requires i < |g.motions|
  {
    ReachAt(g, i, t, b, t.Balance(b))
  }

  function Reaches(g: Gov, i: nat, t: T.Token): map<Address, int>
    requires i < |g.motions|
  {
    map b | b in g.motions[i].ballots.Keys + t.balances.Keys :: Reach(g, i, t, b)
  }

  function Itself(x: int): int { x }

  ghost function Peak(g: Gov, i: nat, t: T.Token): int
    requires i < |g.motions|
  {
    Sum(Reaches(g, i, t), Itself)
  }

  lemma ReachesNonNegative(g: Gov, i: nat, t: T.Token)
    requires i < |g.motions| && PositiveWeights(g.motions[i]) && T.NonNegative(t)
    ensures forall b :: b in Reaches(g, i, t) ==> 0 <= Reaches(g, i, t)[b]
  {
  }

  lemma TotalWithinPeak(g: Gov, i: nat, t: T.Token)
    requires i < |g.motions| && PositiveWeights(g.motions[i]) && T.NonNegative(t)
    ensures g.motions[i].Total() <= Peak(g, i, t)
  {
    TotalIsSum(g.motions[i]);
    ReachesNonNegative(g, i, t);
    Dominated(g.motions[i].ballots, WeightOf, Reaches(g, i, t), Itself);
  }

  // ------------------------------------------------------------------ no run of votes passes the peak

  /** A cast, retraction or change addressed to motion i, by anybody at any time. */
  predicate IsVote(tx: Tx, i: nat) {
    tx.call.ToGovernance? && tx.call.gov.On? && tx.call.gov.id == i
    && (tx.call.gov.act.CastCall? || tx.call.gov.act.RetractCall? || tx.call.gov.act.ChangeCall?)
  }

  predicate VotesOn(txs: seq<Tx>, i: nat) {
    forall n :: 0 <= n < |txs| ==> IsVote(txs[n], i)
  }

  /** Motion i exists and is voted on with token a. */
  ghost predicate Voting(w: World, i: nat, a: Address) {
    && i < |w.gov.motions| && MotionOk(w.gov.motions[i])
    && VotedWith(w, a) && T.Wf(w.tokens[a]) && T.NonNegative(w.tokens[a])
  }

  /** What a vote can do to its motion, and that it does nothing else. */
  ghost predicate VoteEffect(w: World, w': World, i: nat, t: T.Token, env: Env, e: Event)
    requires i < |w.gov.motions|
  {
    && Allowed(w.gov.motions[i], env, e) && w'.gov == w.gov.Put(i, Effect(w.gov.motions[i], env, e))
    && w'.tokens == w.tokens
    && (e.Untouched? || e.Voted? || e.Retracted? || e.Changed?)
    && (e.Voted? ==> May(w.gov, i, t, e.voter) && e.record.weight == t.Balance(e.voter))
  }

  lemma VoteShape(w: World, tx: Tx, i: nat, a: Address)
    requires i < |w.gov.motions| && VotedWith(w, a) && IsVote(tx, i)
    ensures VoteEffect(w, Apply(w, tx), i, w.tokens[a], tx.env, Happens(w, tx, i))
  {
    if Submit(w, tx).Ok? {
      VoterShape(w.gov, tx.env, w.tokens, false, tx.caller, tx.call.gov.id, tx.call.gov.act);
    } else {
      assert w.gov.Put(i, w.gov.motions[i]) == w.gov;
    }
  }

  lemma VoteKeepsReach(w: World, w': World, i: nat, t: T.Token, env: Env, e: Event)
    requires i < |w.gov.motions| && MotionOk(w.gov.motions[i]) && T.NonNegative(t)
    requires VoteEffect(w, w', i, t, env, e)
    ensures forall b :: b in Reaches(w'.gov, i, t) ==>
      b in Reaches(w.gov, i, t) && Reaches(w'.gov, i, t)[b] <= Reaches(w.gov, i, t)[b]
  {
  }

  lemma VoteKeepsPeak(w: World, tx: Tx, i: nat, a: Address)
    requires Voting(w, i, a) && IsVote(tx, i)
    ensures Voting(Apply(w, tx), i, a) && Apply(w, tx).tokens == w.tokens
    ensures Peak(Apply(w, tx).gov, i, w.tokens[a]) <= Peak(w.gov, i, w.tokens[a])
  {
    VoteShape(w, tx, i, a);
    var (w', t, e) := (Apply(w, tx), w.tokens[a], Happens(w, tx, i));
    EventKeepsMotionOk(w.gov.motions[i], tx.env, e);
    VoteKeepsReach(w, w', i, t, tx.env, e);
    ReachesNonNegative(w.gov, i, t);
    Dominated(Reaches(w'.gov, i, t), Itself, Reaches(w.gov, i, t), Itself);
  }

  lemma NextVote(ws: seq<World>, txs: seq<Tx>, i: nat, a: Address, k: nat)
    requires Run(ws, txs) && k < |txs| && Voting(ws[k], i, a) && IsVote(txs[k], i)
    ensures Voting(ws[k + 1], i, a) && ws[k + 1].tokens == ws[k].tokens
    ensures Peak(ws[k + 1].gov, i, ws[k].tokens[a]) <= Peak(ws[k].gov, i, ws[k].tokens[a])
  {
    assert StepAt(ws, txs, k);
    VoteKeepsPeak(ws[k], txs[k], i, a);
  }

  /** Over any run of votes on motion i the tally stays within the peak it started with. */
  lemma {:induction false} VotesStayWithinPeak(ws: seq<World>, txs: seq<Tx>, i: nat, a: Address, k: nat)
    requires Run(ws, txs) && Voting(ws[0], i, a) && VotesOn(txs, i) && k <= |txs|
    ensures Voting(ws[k], i, a) && ws[k].tokens == ws[0].tokens
    ensures Peak(ws[k].gov, i, ws[0].tokens[a]) <= Peak(ws[0].gov, i, ws[0].tokens[a])
    ensures ws[k].gov.motions[i].Total() <= Peak(ws[0].gov, i, ws[0].tokens[a])
  {
    if k > 0 {
      VotesStayWithinPeak(ws, txs, i, a, k - 1);
      NextVote(ws, txs, i, a, k - 1);
    }
    TotalWithinPeak(ws[k].gov, i, ws[0].tokens[a]);
  }

  // ------------------------------------------------------------------ when only some may still cast

  /** What b reaches if it casts only when it is in s. */
  function ReachWithin(g: Gov, i: nat, t: T.Token, s: set<Address>, b: Address): int
    requires i < |g.motions|
  {
    if b in s then Reach(g, i, t, b) else Recorded(g.motions[i], b)
  }

  function ReachesWithin(g: Gov, i: nat, t: T.Token, s: set<Address>): map<Address, int>
    requires i < |g.motions|
  {
    map b | b in g.motions[i].ballots.Keys + t.balances.Keys :: ReachWithin(g, i, t, s, b)
  }

  /** The peak when only the addresses in s cast. */
  ghost function PeakOf(g: Gov, i: nat, t: T.Token, s: set<Address>): int
    requires i < |g.motions|
  {
    Sum(ReachesWithin(g, i, t, s), Itself)
  }

  lemma ReachesWithinNonNegative(g: Gov, i: nat, t: T.Token, s: set<Address>)
    requires i < |g.motions| && PositiveWeights(g.motions[i]) && T.NonNegative(t)
    ensures forall b :: b in ReachesWithin(g, i, t, s) ==> 0 <= ReachesWithin(g, i, t, s)[b]
  {
  }

  lemma PeakOfWithinPeak(g: Gov, i: nat, t: T.Token, s: set<Address>)
    requires i < |g.motions| && PositiveWeights(g.motions[i]) && T.NonNegative(t)
    ensures PeakOf(g, i, t, s) <= Peak(g, i, t)
  {
    ReachesNonNegative(g, i, t);
    Dominated(ReachesWithin(g, i, t, s), Itself, Reaches(g, i, t), Itself);
  }

  /** Motion m keeps to what the motion i of g reaches when the addresses in s cast, once each at most. */
  ghost predicate CastBy(g: Gov, i: nat, t: T.Token, s: set<Address>, m: Motion)
    requires i < |g.motions|
  {
    && g.motions[i].voterCount + |s| <= m.voterCount
    && forall b :: b in m.ballots ==>
      b in ReachesWithin(g, i, t, s) && m.ballots[b].weight <= ReachWithin(g, i, t, s, b)
  }

  lemma CastByTotal(g: Gov, i: nat, t: T.Token, s: set<Address>, m: Motion)
    requires i < |g.motions| && PositiveWeights(g.motions[i]) && T.NonNegative(t) && CastBy(g, i, t, s, m)
    ensures m.Total() <= PeakOf(g, i, t, s)
  {
    TotalIsSum(m);
    ReachesWithinNonNegative(g, i, t, s);
    Dominated(m.ballots, WeightOf, ReachesWithin(g, i, t, s), Itself);
  }

  /** The same people may vote. */
  predicate SameRules(g: Gov, g': Gov, i: nat) {
    i < |g.motions| && i < |g'.motions| && g'.config == g.config && g'.motions[i].proposer == g.motions[i].proposer
  }

  /** A vote puts at most its caster on the list. */
  function Casters(s: set<Address>, e: Event): set<Address> {
    if e.Voted? then s + {e.voter} else s
  }

  lemma CasterReaches(g: Gov, w: World, i: nat, t: T.Token, env: Env, e: Event)
    requires i < |g.motions| && SameRules(g, w.gov, i) && e.Voted?
    requires Allowed(w.gov.motions[i], env, e)
    requires May(w.gov, i, t, e.voter) && e.record.weight == t.Balance(e.voter)
    ensures e.voter in t.balances && e.record.weight <= Reach(g, i, t, e.voter)
  {
  }

  lemma VoteKeepsCastBy(g: Gov, w: World, w': World, i: nat, t: T.Token, env: Env, e: Event, s: set<Address>)
    requires SameRules(g, w.gov, i) && VoteEffect(w, w', i, t, env, e)
    requires PositiveWeights(g.motions[i]) && T.NonNegative(t) && CastBy(g, i, t, s, w.gov.motions[i])
    ensures SameRules(g, w'.gov, i) && CastBy(g, i, t, Casters(s, e), w'.gov.motions[i])
  {
    var (m, m', s') := (w.gov.motions[i], w'.gov.motions[i], Casters(s, e));
    if e.Voted? { CasterReaches(g, w, i, t, env, e); }
    assert |s'| <= |s| + 1;
    forall b | b in m'.ballots
      ensures b in ReachesWithin(g, i, t, s') && m'.ballots[b].weight <= ReachWithin(g, i, t, s', b)
    {
      VoteRecordWithin(g, i, t, s, m, env, e, b);
    }
  }

  lemma VoteRecordWithin(g: Gov, i: nat, t: T.Token, s: set<Address>, m: Motion, env: Env, e: Event, b: Address)
    requires i < |g.motions| && CastBy(g, i, t, s, m) && Allowed(m, env, e)
    requires e.Untouched? || e.Voted? || e.Retracted? || e.Changed?
    requires e.Voted? ==> e.voter in t.balances && e.record.weight <= Reach(g, i, t, e.voter)
    requires b in Effect(m, env, e).ballots
    ensures b in ReachesWithin(g, i, t, Casters(s, e))
    ensures Effect(m, env, e).ballots[b].weight <= ReachWithin(g, i, t, Casters(s, e), b)
  {
    if b in m.ballots {
      assert m.ballots[b].weight <= ReachWithin(g, i, t, s, b) <= ReachWithin(g, i, t, Casters(s, e), b);
    }
  }

  lemma NextCaster(g: Gov, ws: seq<World>, txs: seq<Tx>, i: nat, a: Address, k: nat, s: set<Address>)
    returns (s': set<Address>)
    requires Run(ws, txs) && k < |txs| && Voting(ws[k], i, a) && IsVote(txs[k], i) && SameRules(g, ws[k].gov, i)
    requires PositiveWeights(g.motions[i]) && CastBy(g, i, ws[k].tokens[a], s, ws[k].gov.motions[i])
    ensures Voting(ws[k + 1], i, a) && ws[k + 1].tokens == ws[k].tokens && SameRules(g, ws[k + 1].gov, i)
    ensures CastBy(g, i, ws[k].tokens[a], s', ws[k + 1].gov.motions[i])
  {
    NextVote(ws, txs, i, a, k);
    assert StepAt(ws, txs, k);
    VoteShape(ws[k], txs[k], i, a);
    var e := Happens(ws[k], txs[k], i);
    VoteKeepsCastBy(g, ws[k], ws[k + 1], i, ws[k].tokens[a], txs[k].env, e, s);
    s' := Casters(s, e);
  }

  /** Over any run of votes the tally stays within the peak of those who cast, and the voter count shows how many
      they can be. */
  lemma {:induction false} VotesStayWithinPeakOf(ws: seq<World>, txs: seq<Tx>, i: nat, a: Address, k: nat)
    returns (s: set<Address>)
    requires Run(ws, txs) && Voting(ws[0], i, a) && VotesOn(txs, i) && k <= |txs|
    ensures Voting(ws[k], i, a) && ws[k].tokens == ws[0].tokens && SameRules(ws[0].gov, ws[k].gov, i)
    ensures CastBy(ws[0].gov, i, ws[0].tokens[a], s, ws[k].gov.motions[i])
  {
    s := {};
    if k > 0 {
      s := VotesStayWithinPeakOf(ws, txs, i, a, k - 1);
      s := NextCaster(ws[0].gov, ws, txs, i, a, k - 1, s);
    }
  }

  // ------------------------------------------------------------------ staying within the supply

  /** No run of votes from w takes the tally of motion i beyond the limit. */
  ghost predicate NeverExceeds(w: World, i: nat, limit: int) {
    forall ws: seq<World>, txs: seq<Tx> ::
      Run(ws, txs) && ws[0] == w && VotesOn(txs, i) && i < |ws[|txs|].gov.motions| ==>
        ws[|txs|].gov.motions[i].Total() <= limit
  }

  /** Nobody can take the tally beyond the limit with the casts the voter count, a u32, has room for. The sets to look
      at are those of the largest gains. */
  ghost predicate Fits(g: Gov, i: nat, t: T.Token, limit: int)
    requires i < |g.motions|
  {
    forall s :: g.motions[i].voterCount + |s| <= U32_MAX ==> PeakOf(g, i, t, s) <= limit
  }

  lemma FittingIsSafe(w: World, i: nat, a: Address, limit: int)
    requires Voting(w, i, a) && Fits(w.gov, i, w.tokens[a], limit)
    ensures NeverExceeds(w, i, limit)
  {
    forall ws: seq<World>, txs: seq<Tx> |
      Run(ws, txs) && ws[0] == w && VotesOn(txs, i) && i < |ws[|txs|].gov.motions|
      ensures ws[|txs|].gov.motions[i].Total() <= limit
    {
      var s := VotesStayWithinPeakOf(ws, txs, i, a, |txs|);
      CastByTotal(w.gov, i, w.tokens[a], s, ws[|txs|].gov.motions[i]);
    }
  }

  lemma PeakWithinFits(g: Gov, i: nat, t: T.Token, limit: int)
    requires i < |g.motions| && PositiveWeights(g.motions[i]) && T.NonNegative(t) && Peak(g, i, t) <= limit
    ensures Fits(g, i, t, limit)
  {
    forall s ensures PeakOf(g, i, t, s) <= limit {
      PeakOfWithinPeak(g, i, t, s);
    }
  }

  /** A motion whose records are all backed by current balances is on the safe side. */
  lemma CoveredMeansSafe(w: World, i: nat, a: Address)
    requires Voting(w, i, a) && CoveredBy(w.tokens[a], w.gov.motions[i])
    ensures Peak(w.gov, i, w.tokens[a]) <= w.tokens[a].Supply() && NeverExceeds(w, i, w.tokens[a].Supply())
  {
    var t := w.tokens[a];
    Dominated(Reaches(w.gov, i, t), Itself, t.balances, T.Amount);
    PeakWithinFits(w.gov, i, t, t.Supply());
    FittingIsSafe(w, i, a, t.Supply());
  }

  // ------------------------------------------------------------------ any transactions at all

  /** How much more address b may cast after a step than before it. */
  function RiseOf(g: Gov, t: T.Token, g': Gov, t': T.Token, i: nat, b: Address): int
    requires i < |g.motions| && i < |g'.motions|
  {
    var (before, after) := (Castable(g, i, t, b, t.Balance(b)), Castable(g', i, t', b, t'.Balance(b)));
    if before < after then after - before else 0
  }

  function Rises(g: Gov, t: T.Token, g': Gov, t': T.Token, i: nat): map<Address, int>
    requires i < |g.motions| && i < |g'.motions|
  {
    map b | b in Reaches(g, i, t).Keys + t'.balances.Keys :: RiseOf(g, t, g', t', i, b)
  }

  /** All castable weight that a step creates: tokens received, minted or no longer delegated, a lifted restriction. */
  ghost function Rise(g: Gov, t: T.Token, g': Gov, t': T.Token, i: nat): int
    requires i < |g.motions| && i < |g'.motions|
  {
    Sum(Rises(g, t, g', t', i), Itself)
  }

  /** Reach and rise of every address either has. */
  function Both(g: Gov, t: T.Token, g': Gov, t': T.Token, i: nat): map<Address, (int, int)>
    requires i < |g.motions| && i < |g'.motions|
  {
    map b | b in Reaches(g, i, t).Keys + t'.balances.Keys :: (Reach(g, i, t, b), RiseOf(g, t, g', t', i, b))
  }

  function First(p: (int, int)): int { p.0 }
  function Second(p: (int, int)): int { p.1 }
  function Joint(p: (int, int)): int { p.0 + p.1 }

  lemma BothSums(g: Gov, t: T.Token, g': Gov, t': T.Token, i: nat)
    requires i < |g.motions| && i < |g'.motions|
    ensures Sum(Both(g, t, g', t', i), Joint) <= Peak(g, i, t) + Rise(g, t, g', t', i)
  {
    var both := Both(g, t, g', t', i);
    Split(both, First, Second, Joint);
    FirstSums(g, t, g', t', i);
    SameSum(both, Second, Rises(g, t, g', t', i), Itself);
  }

  lemma FirstSums(g: Gov, t: T.Token, g': Gov, t': T.Token, i: nat)
    requires i < |g.motions| && i < |g'.motions|
    ensures Sum(Both(g, t, g', t', i), First) <= Peak(g, i, t)
  {
    Partition(Both(g, t, g', t', i), Reaches(g, i, t).Keys, First);
    ReachingSums(g, t, g', t', i);
    OthersSumToNothing(g, t, g', t', i);
  }

  lemma ReachingSums(g: Gov, t: T.Token, g': Gov, t': T.Token, i: nat)
    requires i < |g.motions| && i < |g'.motions|
    ensures Sum(Restrict(Both(g, t, g', t', i), Reaches(g, i, t).Keys), First) == Peak(g, i, t)
  {
    SameSum(Restrict(Both(g, t, g', t', i), Reaches(g, i, t).Keys), First, Reaches(g, i, t), Itself);
  }

  /** Who has neither a record nor a balance reaches nothing. */
  lemma OthersSumToNothing(g: Gov, t: T.Token, g': Gov, t': T.Token, i: nat)
    requires i < |g.motions| && i < |g'.motions|
    ensures var both := Both(g, t, g', t', i);
      Sum(Restrict(both, both.Keys - Reaches(g, i, t).Keys), First) <= 0
  {
    var both := Both(g, t, g', t', i);
    NothingPositive(Restrict(both, both.Keys - Reaches(g, i, t).Keys), First);
  }

  /** The record a step leaves an address with is within its reach before the step. */
  ghost predicate RecordsWithinReach(g: Gov, t: T.Token, g': Gov, i: nat)
    requires i < |g.motions| && i < |g'.motions|
  {
    forall b :: b in g'.motions[i].ballots ==> g'.motions[i].ballots[b].weight <= Reach(g, i, t, b)
  }

  lemma ReachNonNegative(g: Gov, i: nat, t: T.Token, b: Address)
    requires i < |g.motions| && PositiveWeights(g.motions[i]) && T.NonNegative(t)
    ensures 0 <= Reach(g, i, t, b)
  {
  }

  lemma ReachRisesBy(g: Gov, t: T.Token, g': Gov, t': T.Token, i: nat, b: Address)
    requires i < |g.motions| && i < |g'.motions| && RecordsWithinReach(g, t, g', i)
    requires PositiveWeights(g.motions[i]) && T.NonNegative(t)
    ensures Reach(g', i, t', b) <= Reach(g, i, t, b) + RiseOf(g, t, g', t', i, b)
    ensures 0 <= Reach(g, i, t, b) + RiseOf(g, t, g', t', i, b)
  {
    ReachNonNegative(g, i, t, b);
  }

  /** Whoever has a record or a balance after the step is counted. */
  lemma ReachersCounted(g: Gov, t: T.Token, g': Gov, t': T.Token, i: nat)
    requires i < |g.motions| && i < |g'.motions| && RecordsWithinReach(g, t, g', i)
    requires PositiveWeights(g'.motions[i])
    ensures Reaches(g', i, t').Keys <= Both(g, t, g', t', i).Keys
  {
    forall b | b in g'.motions[i].ballots ensures b in Reaches(g, i, t) {
      assert 0 < Reach(g, i, t, b);
    }
  }

  lemma PeakRisesBy(g: Gov, t: T.Token, g': Gov, t': T.Token, i: nat)
    requires i < |g.motions| && i < |g'.motions| && RecordsWithinReach(g, t, g', i)
    requires PositiveWeights(g.motions[i]) && T.NonNegative(t) && PositiveWeights(g'.motions[i])
    ensures Peak(g', i, t') <= Peak(g, i, t) + Rise(g, t, g', t', i)
  {
    var (all', both) := (Reaches(g', i, t'), Both(g, t, g', t', i));
    ReachersCounted(g, t, g', t', i);
    forall b | b in both ensures 0 <= Joint(both[b]) && Reach(g', i, t', b) <= Joint(both[b]) {
      ReachRisesBy(g, t, g', t', i, b);
    }
    Dominated(all', Itself, both, Joint);
    BothSums(g, t, g', t', i);
  }

  lemma CastIsWithinReach(w: World, tx: Tx, i: nat, a: Address)
    requires i < |w.gov.motions| && VotedWith(w, a) && Happens(w, tx, i).Voted?
    ensures var e := Happens(w, tx, i); e.record.weight <= Reach(w.gov, i, w.tokens[a], e.voter)
  {
    VoteShape(w, tx, i, a);
  }

  lemma EffectWithinReach(g: Gov, i: nat, t: T.Token, env: Env, e: Event, b: Address)
    requires i < |g.motions| && Allowed(g.motions[i], env, e)
    requires e.Voted? ==> e.record.weight <= Reach(g, i, t, e.voter)
    requires b in Effect(g.motions[i], env, e).ballots
    ensures Effect(g.motions[i], env, e).ballots[b].weight <= Reach(g, i, t, b)
  {
  }

  lemma EventWithinReach(w: World, tx: Tx, i: nat, a: Address)
    requires i < |w.gov.motions| && VotedWith(w, a)
    ensures i < |Apply(w, tx).gov.motions|
    ensures RecordsWithinReach(w.gov, w.tokens[a], Apply(w, tx).gov, i)
  {
    TxShape(w, tx);
    var e := Happens(w, tx, i);
    if e.Voted? {
      CastIsWithinReach(w, tx, i, a);
    }
    forall b | b in Effect(w.gov.motions[i], tx.env, e).ballots
      ensures Effect(w.gov.motions[i], tx.env, e).ballots[b].weight <= Reach(w.gov, i, w.tokens[a], b)
    {
      EffectWithinReach(w.gov, i, w.tokens[a], tx.env, e, b);
    }
  }

  lemma TokensPersist(w: World, tx: Tx, a: Address)
    requires WorldOk(w) && a in w.tokens
    ensures a in Apply(w, tx).tokens
  {
    ApplySupply(w, tx, a);
  }

  lemma NextRises(ws: seq<World>, txs: seq<Tx>, n: nat, i: nat, a: Address)
    requires Run(ws, txs) && n < |txs| && WorldOk(ws[n]) && NonNegative(ws[n]) && WorldOk(ws[n + 1])
    requires Exists(ws, n, i) && MotionAt(ws, n, i).state == Active && VotedWith(ws[n], a)
    ensures Exists(ws, n + 1, i) && VotedWith(ws[n + 1], a)
    ensures Peak(ws[n + 1].gov, i, ws[n + 1].tokens[a]) <=
      Peak(ws[n].gov, i, ws[n].tokens[a]) + Rise(ws[n].gov, ws[n].tokens[a], ws[n + 1].gov, ws[n + 1].tokens[a], i)
  {
    assert StepAt(ws, txs, n);
    var (w, w') := (ws[n], ws[n + 1]);
    EventWithinReach(w, txs[n], i, a);
    ApplyKeepsTokenWhileActive(w, txs[n], i);
    TokensPersist(w, txs[n], a);
    assert MotionOk(w.gov.motions[i]) && MotionOk(w'.gov.motions[i]);
    PeakRisesBy(w.gov, w.tokens[a], w'.gov, w'.tokens[a], i);
  }

  /** Motion i and token a exist after n transactions. */
  ghost predicate Alive(ws: seq<World>, n: nat, i: nat, a: Address) {
    Exists(ws, n, i) && a in ws[n].tokens
  }

  /** What all steps j..k-1 create. */
  ghost function RiseBetween(ws: seq<World>, j: nat, k: nat, i: nat, a: Address): int
    requires j <= k
    decreases k
  {
    if j == k then 0
    else
      var step := if Alive(ws, k - 1, i, a) && Alive(ws, k, i, a)
        then Rise(ws[k - 1].gov, ws[k - 1].tokens[a], ws[k].gov, ws[k].tokens[a], i) else 0;
      RiseBetween(ws, j, k - 1, i, a) + step
  }

  lemma NextWithinRises(ws: seq<World>, txs: seq<Tx>, j: nat, k: nat, i: nat, a: Address, start: int)
    requires Run(ws, txs) && WorldOk(ws[0]) && NonNegative(ws[0]) && SoundIssue(txs)
    requires j <= k < |txs| && Exists(ws, k, i) && VotedWith(ws[k], a) && MotionAt(ws, k, i).state == Active
    requires Peak(ws[k].gov, i, ws[k].tokens[a]) <= start + RiseBetween(ws, j, k, i, a)
    ensures Exists(ws, k + 1, i) && VotedWith(ws[k + 1], a)
    ensures Peak(ws[k + 1].gov, i, ws[k + 1].tokens[a]) <= start + RiseBetween(ws, j, k + 1, i, a)
  {
    RunKeepsNonNegative(ws, txs, k);
    RunKeepsNonNegative(ws, txs, k + 1);
    NextRises(ws, txs, k, i, a);
  }

  lemma {:induction false} PeakWithinRises(ws: seq<World>, txs: seq<Tx>, j: nat, k: nat, i: nat, a: Address)
    requires Run(ws, txs) && WorldOk(ws[0]) && NonNegative(ws[0]) && SoundIssue(txs)
    requires j <= k <= |txs| && Exists(ws, j, i) && VotedWith(ws[j], a)
    requires ActiveBetween(ws, j, k, i)
    ensures Exists(ws, k, i) && VotedWith(ws[k], a)
    ensures Peak(ws[k].gov, i, ws[k].tokens[a]) <= Peak(ws[j].gov, i, ws[j].tokens[a]) + RiseBetween(ws, j, k, i, a)
    decreases k
  {
    if j < k {
      PeakWithinRises(ws, txs, j, k - 1, i, a);
      NextWithinRises(ws, txs, j, k - 1, i, a, Peak(ws[j].gov, i, ws[j].tokens[a]));
    }
  }

  /** Motion i is Active in the worlds j..k-1. */
  ghost predicate ActiveBetween(ws: seq<World>, j: nat, k: nat, i: nat) {
    forall n :: j <= n < k && Exists(ws, n, i) ==> MotionAt(ws, n, i).state == Active
  }

  /** Whatever happens on the ledger while a motion is Active, its tally stays within the peak it started with plus the
      castable weight created on the way. */
  lemma TallyWithinPeakAndRises(ws: seq<World>, txs: seq<Tx>, j: nat, k: nat, i: nat, a: Address)
    requires Run(ws, txs) && WorldOk(ws[0]) && NonNegative(ws[0]) && SoundIssue(txs)
    requires j <= k <= |txs| && Exists(ws, j, i) && VotedWith(ws[j], a)
    requires ActiveBetween(ws, j, k, i)
    ensures Exists(ws, k, i)
    ensures MotionAt(ws, k, i).Total() <= Peak(ws[j].gov, i, ws[j].tokens[a]) + RiseBetween(ws, j, k, i, a)
  {
    PeakWithinRises(ws, txs, j, k, i, a);
    RunKeepsNonNegative(ws, txs, k);
    assert MotionOk(MotionAt(ws, k, i));
    TotalWithinPeak(ws[k].gov, i, ws[k].tokens[a]);
  }
}
