/** When votes alone can carry a tally beyond the supply. Whoever may cast more than is on record can take the record
    back and cast again; the peak of the addresses that do is what this comes to. The three tallies are bounded
    separately, so a peak beyond the integer range does not stand in the way; the voter count is a u32, so no more
    addresses can cast than it has room for. */
module PeakAttained {
  import opened Host
  import opened MapSum
  import opened SystemSpec
  import opened SystemLaws
  import opened GovernanceLaws
  import opened GovernanceSpec
  import opened SupplyBound
  import opened VotePeak
  import Lifecycle
  import T = TokenSpec

  // ------------------------------------------------------------------ who can raise a tally

  /** Who could raise the tally by casting now, after a retraction if need be. */
  function Raisable(g: Gov, i: nat, t: T.Token): set<Address>
    requires i < |g.motions|
  {
    set b | b in t.balances && Recorded(g.motions[i], b) < Castable(g, i, t, b, t.Balance(b))
  }

  /** Only whoever can raise the tally makes a difference to the peak. */
  lemma PeakOfRaisable(g: Gov, i: nat, t: T.Token, s: set<Address>)
    requires i < |g.motions| && PositiveWeights(g.motions[i])
    ensures PeakOf(g, i, t, s) == PeakOf(g, i, t, s * Raisable(g, i, t))
    ensures Raisable(g, i, t) <= s ==> PeakOf(g, i, t, s) == Peak(g, i, t)
  {
    var (all, up) := (g.motions[i].ballots.Keys + t.balances.Keys, Raisable(g, i, t));
    forall b | b in all ensures ReachWithin(g, i, t, s, b) == ReachWithin(g, i, t, s * up, b)
      ensures up <= s ==> ReachWithin(g, i, t, s, b) == Reach(g, i, t, b)
    {
      NotRaisable(g, i, t, b);
    }
    assert ReachesWithin(g, i, t, s) == ReachesWithin(g, i, t, s * up);
    if up <= s {
      assert ReachesWithin(g, i, t, s) == Reaches(g, i, t);
    }
  }

  lemma NotRaisable(g: Gov, i: nat, t: T.Token, b: Address)
    requires i < |g.motions| && PositiveWeights(g.motions[i])
    ensures b !in Raisable(g, i, t) ==> Reach(g, i, t, b) == Recorded(g.motions[i], b)
  {
  }

  lemma PeakOfNobody(g: Gov, i: nat, t: T.Token)
    requires i < |g.motions| && PositiveWeights(g.motions[i])
    ensures PeakOf(g, i, t, {}) == g.motions[i].Total()
  {
    var (m, all) := (g.motions[i], ReachesWithin(g, i, t, {}));
    TotalIsSum(m);
    Partition(all, m.ballots.Keys, Itself);
    NothingPositive(Restrict(all, all.Keys - m.ballots.Keys), Itself);
    AtLeastEach(Restrict(all, all.Keys - m.ballots.Keys), Itself);
    SameSum(Restrict(all, m.ballots.Keys), Itself, m.ballots, WeightOf);
  }

  lemma PeakHasRoom(g: Gov, i: nat, t: T.Token, s: set<Address>, b: Address, vote: Vote)
    requires i < |g.motions| && PositiveWeights(g.motions[i]) && T.NonNegative(t)
    requires b in s && b in t.balances && b !in g.motions[i].ballots
    ensures g.motions[i].Weight(vote) + Reach(g, i, t, b) <= PeakOf(g, i, t, s)
  {
    var (m, all) := (g.motions[i], ReachesWithin(g, i, t, s));
    WeightWithinSum(m, vote);
    ReachesWithinNonNegative(g, i, t, s);
    TakeOut(all, b, Itself);
    Dominated(m.ballots, WeightOf, all - {b}, Itself);
  }

  lemma WeightWithinSum(m: Motion, vote: Vote)
    requires PositiveWeights(m)
    ensures m.Weight(vote) <= Sum(m.ballots, WeightOf)
  {
    WeightsNonNegative(m);
    TotalIsSum(m);
  }

  function RetractTx(env: Env, caller: Address, i: u64): Tx {
    Tx(env, caller, ToGovernance(On(i, RetractCall)))
  }

  lemma RetractOutcome(w: World, env: Env, i: u64, a: Address, voter: Address)
    requires Open(w, env, i, a) && voter.Other? && voter in w.gov.motions[i].ballots
    ensures var (w', m) := (Apply(w, RetractTx(env, voter, i)), w.gov.motions[i]);
      Open(w', env, i, a) && w' == w.(gov := w.gov.Put(i, m.(ballots := m.ballots - {voter})))
  {
    EventKeepsMotionOk(w.gov.motions[i], env, Retracted(voter));
  }

  /** One step up for address b: take the record back, or cast the balance. */
  function RaiseTx(g: Gov, env: Env, i: u64, b: Address, vote: Vote): Tx
    requires i < |g.motions|
  {
    if b in g.motions[i].ballots then RetractTx(env, b, i) else CastTx(env, b, i, vote)
  }

  function Raised(g: Gov, i: nat, t: T.Token, b: Address, vote: Vote): Gov
    requires i < |g.motions| && g.motions[i].voterCount < U32_MAX
  {
    var m := g.motions[i];
    g.Put(i, if b in m.ballots then m.(ballots := m.ballots - {b})
             else m.(ballots := m.ballots[b := VoteRecord(vote, t.Balance(b))], voterCount := m.voterCount + 1))
  }

  /** The step goes through if a cast fits its tally; a retraction always does. */
  lemma RaiseOutcome(w: World, env: Env, i: u64, a: Address, b: Address, vote: Vote)
    requires Open(w, env, i, a) && b in Raisable(w.gov, i, w.tokens[a]) && w.gov.motions[i].voterCount < U32_MAX
    requires var m := w.gov.motions[i]; b in m.ballots || m.Weight(vote) + w.tokens[a].Balance(b) <= I128_MAX
    ensures var w' := Apply(w, RaiseTx(w.gov, env, i, b, vote));
      Open(w', env, i, a) && w' == w.(gov := Raised(w.gov, i, w.tokens[a], b, vote))
  {
    if b in w.gov.motions[i].ballots {
      RetractOutcome(w, env, i, a, b);
    } else {
      CastOutcome(w, env, i, a, b, vote);
      EventKeepsMotionOk(w.gov.motions[i], env, Voted(b, VoteRecord(vote, w.tokens[a].Balance(b))));
    }
  }

  /** Who still has to step up. */
  function Waiting(m: Motion, s: set<Address>, b: Address): set<Address> {
    if b in m.ballots then s else s - {b}
  }

  /** Stepping up leaves what everybody reaches as it is. */
  lemma RaiseKeepsPeak(g: Gov, i: nat, t: T.Token, s: set<Address>, b: Address, vote: Vote)
    requires i < |g.motions| && g.motions[i].voterCount < U32_MAX && PositiveWeights(g.motions[i])
    requires b in s && b in Raisable(g, i, t)
    ensures PeakOf(Raised(g, i, t, b, vote), i, t, Waiting(g.motions[i], s, b)) == PeakOf(g, i, t, s)
  {
    var (g', s') := (Raised(g, i, t, b, vote), Waiting(g.motions[i], s, b));
    forall x ensures ReachWithin(g', i, t, s', x) == ReachWithin(g, i, t, s, x) {
      RaiseKeepsReach(g, i, t, s, b, vote, x);
    }
    assert ReachesWithin(g', i, t, s') == ReachesWithin(g, i, t, s);
  }

  lemma RaiseKeepsReach(g: Gov, i: nat, t: T.Token, s: set<Address>, b: Address, vote: Vote, x: Address)
    requires i < |g.motions| && g.motions[i].voterCount < U32_MAX && PositiveWeights(g.motions[i])
    requires b in s && b in Raisable(g, i, t)
    ensures ReachWithin(Raised(g, i, t, b, vote), i, t, Waiting(g.motions[i], s, b), x) == ReachWithin(g, i, t, s, x)
  {
  }

  /** After a retraction the same people can raise the tally, after a cast all but the caster. */
  lemma RaiseProgresses(g: Gov, i: nat, t: T.Token, b: Address, vote: Vote)
    requires i < |g.motions| && g.motions[i].voterCount < U32_MAX && PositiveWeights(g.motions[i])
    requires b in Raisable(g, i, t)
    ensures Raisable(Raised(g, i, t, b, vote), i, t) == Waiting(g.motions[i], Raisable(g, i, t), b)
  {
    var (g', m) := (Raised(g, i, t, b, vote), g.motions[i]);
    forall x ensures x in Raisable(g', i, t) <==> x in Waiting(m, Raisable(g, i, t), b) {
      assert x != b ==> Recorded(g'.motions[i], x) == Recorded(m, x);
    }
  }

  /** Fewer casts are left, or as many and fewer retractions; the voter count keeps pace. */
  ghost predicate StepsLeft(m': Motion, s': set<Address>, m: Motion, s: set<Address>) {
    && m'.voterCount + |s'| <= m.voterCount + |s|
    && (|s'| < |s| || (|s'| == |s| && |s' * m'.ballots.Keys| < |s * m.ballots.Keys|))
  }

  lemma RaiseShortens(g: Gov, i: nat, t: T.Token, s: set<Address>, b: Address, vote: Vote)
    requires i < |g.motions| && g.motions[i].voterCount < U32_MAX && b in s
    ensures StepsLeft(Raised(g, i, t, b, vote).motions[i], Waiting(g.motions[i], s, b), g.motions[i], s)
  {
    var keys := g.motions[i].ballots.Keys;
    if b in keys {
      assert s * keys == s * (keys - {b}) + {b};
    }
  }

  /** Everybody in s can raise the tally, and the voter count has room for them. */
  ghost predicate CanRaise(g: Gov, i: nat, t: T.Token, s: set<Address>)
    requires i < |g.motions|
  {
    s <= Raisable(g, i, t) && g.motions[i].voterCount + |s| <= U32_MAX
  }

  /** One step up, and how a run from there becomes a run from here. */
  lemma RaiseOnce(w: World, env: Env, i: u64, a: Address, s: set<Address>, b: Address, vote: Vote)
    returns (w': World, tx: Tx)
    requires Open(w, env, i, a) && CanRaise(w.gov, i, w.tokens[a], s) && b in s
    requires var m := w.gov.motions[i]; b in m.ballots || m.Weight(vote) + w.tokens[a].Balance(b) <= I128_MAX
    ensures IsVote(tx, i) && Open(w', env, i, a) && ComesBefore(w, tx, w')
    ensures w.gov.motions[i].voterCount < U32_MAX && w' == w.(gov := Raised(w.gov, i, w.tokens[a], b, vote))
    ensures var s' := Waiting(w.gov.motions[i], s, b);
      && CanRaise(w'.gov, i, w.tokens[a], s')
      && PeakOf(w'.gov, i, w.tokens[a], s') == PeakOf(w.gov, i, w.tokens[a], s)
      && StepsLeft(w'.gov.motions[i], s', w.gov.motions[i], s)
  {
    SomebodyLeft(s, b);
    tx := RaiseTx(w.gov, env, i, b, vote);
    w' := Apply(w, tx);
    RaiseOutcome(w, env, i, a, b, vote);
    RaiseKeepsPeak(w.gov, i, w.tokens[a], s, b, vote);
    RaiseProgresses(w.gov, i, w.tokens[a], b, vote);
    RaiseShortens(w.gov, i, w.tokens[a], s, b, vote);
    Precedes(w, tx);
  }

  lemma SomebodyLeft(s: set<Address>, b: Address)
    requires b in s
    ensures |s| > 0
  {
  }

  /** A run from w' becomes a run from w when tx is put in front. */
  ghost predicate ComesBefore(w: World, tx: Tx, w': World) {
    forall ws, txs :: Run(ws, txs) && ws[0] == w' ==> Run([w] + ws, [tx] + txs)
  }

  lemma Precedes(w: World, tx: Tx)
    ensures ComesBefore(w, tx, Apply(w, tx))
  {
    forall ws, txs | Run(ws, txs) && ws[0] == Apply(w, tx) ensures Run([w] + ws, [tx] + txs) {
      Prepend(w, tx, ws, txs);
    }
  }

  // ------------------------------------------------------------------ the peak is attained

  /** The run ends with the tally of motion i at the given total, after nothing but votes on it. */
  ghost predicate Attains(ws: seq<World>, txs: seq<Tx>, w: World, i: nat, total: int) {
    && Run(ws, txs) && ws[0] == w && VotesOn(txs, i)
    && i < |ws[|txs|].gov.motions| && ws[|txs|].gov.motions[i].Total() == total
  }

  lemma AttainsFromHere(ws: seq<World>, txs: seq<Tx>, w: World, w': World, tx: Tx, i: nat, total: int)
    requires Attains(ws, txs, w', i, total) && IsVote(tx, i) && Run([w] + ws, [tx] + txs)
    ensures Attains([w] + ws, [tx] + txs, w, i, total)
  {
    assert ([w] + ws)[|[tx] + txs|] == ws[|txs|];
  }

  lemma {:induction false} RaisableAttain(w: World, env: Env, i: u64, a: Address, s: set<Address>)
    returns (ws: seq<World>, txs: seq<Tx>)
    requires Open(w, env, i, a) && CanRaise(w.gov, i, w.tokens[a], s) && PeakOf(w.gov, i, w.tokens[a], s) <= I128_MAX
    ensures Attains(ws, txs, w, i, PeakOf(w.gov, i, w.tokens[a], s))
    decreases |s|, |s * w.gov.motions[i].ballots.Keys|
  {
    if s == {} {
      ws, txs := [w], [];
      PeakOfNobody(w.gov, i, w.tokens[a]);
    } else {
      var b :| b in s;
      if b !in w.gov.motions[i].ballots { PeakHasRoom(w.gov, i, w.tokens[a], s, b, Yes); }
      var w', tx := RaiseOnce(w, env, i, a, s, b, Yes);
      var ws', rest := RaisableAttain(w', env, i, a, Waiting(w.gov.motions[i], s, b));
      ws, txs := [w] + ws', [tx] + rest;
      AttainsFromHere(ws', rest, w, w', tx, i, PeakOf(w.gov, i, w.tokens[a], s));
    }
  }

  /** Whichever addresses cast, within the room of the voter count, some run of retractions and casts brings the tally
      exactly to their peak, provided one tally can hold that. */
  lemma PeakIsAttained(w: World, env: Env, i: u64, a: Address, s: set<Address>) returns (ws: seq<World>, txs: seq<Tx>)
    requires Open(w, env, i, a) && w.gov.motions[i].voterCount + |s| <= U32_MAX
    requires PeakOf(w.gov, i, w.tokens[a], s) <= I128_MAX
    ensures Attains(ws, txs, w, i, PeakOf(w.gov, i, w.tokens[a], s))
  {
    var up := s * Raisable(w.gov, i, w.tokens[a]);
    PeakOfRaisable(w.gov, i, w.tokens[a], s);
    NoMore(up, s);
    ws, txs := RaisableAttain(w, env, i, a, up);
  }

  lemma {:induction false} NoMore(a: set<Address>, b: set<Address>)
    requires a <= b
    ensures |a| <= |b|
    decreases |a|
  {
    if a != {} {
      var x :| x in a;
      NoMore(a - {x}, b - {x});
    }
  }

  // ------------------------------------------------------------------ taking a vote back and casting it again

  /** The weight on record for `vote` without what b has there. */
  ghost function WeightOfOthers(m: Motion, b: Address, vote: Vote): int {
    m.Weight(vote) - if b in m.ballots && m.ballots[b].vote == vote then m.ballots[b].weight else 0
  }

  /** Retracting and casting again counts the balance of now instead of the one on record, if the tally can hold it,
      with no token moving during the two calls. */
  lemma RecastCountsLiveBalance(w: World, env: Env, i: u64, a: Address, b: Address, vote: Vote) returns (twice: World)
    requires Open(w, env, i, a) && w.gov.motions[i].voterCount < U32_MAX
    requires b in w.gov.motions[i].ballots && May(w.gov, i, w.tokens[a], b) && w.tokens[a].Balance(b) > 0
    ensures twice == Apply(Apply(w, RetractTx(env, b, i)), CastTx(env, b, i, vote))
    ensures i < |twice.gov.motions|
    ensures var (m, balance) := (w.gov.motions[i], w.tokens[a].Balance(b));
      twice.gov.motions[i].Total() == m.Total() - m.ballots[b].weight +
        if WeightOfOthers(m, b, vote) + balance <= I128_MAX then balance else 0
  {
    RetractOutcome(w, env, i, a, b);
    var once := Apply(w, RetractTx(env, b, i));
    DropBallot(w.gov.motions[i], b, vote);
    twice := CastOnce(once, env, i, a, b, vote);
    RetractedTotal(w.gov.motions[i], b);
  }

  lemma RetractedTotal(m: Motion, b: Address)
    requires b in m.ballots
    ensures m.(ballots := m.ballots - {b}).Total() == m.Total() - m.ballots[b].weight
  {
    TotalIsSum(m);
    TotalIsSum(m.(ballots := m.ballots - {b}));
    TakeOut(m.ballots, b, WeightOf);
  }

  lemma CastTotal(m: Motion, b: Address, r: VoteRecord, count: u32)
    requires b !in m.ballots
    ensures m.(ballots := m.ballots[b := r], voterCount := count).Total() == m.Total() + r.weight
  {
    TotalIsSum(m);
    TotalIsSum(m.(ballots := m.ballots[b := r], voterCount := count));
    Put(m.ballots, b, r, WeightOf);
  }

  lemma CastOnce(w: World, env: Env, i: u64, a: Address, b: Address, vote: Vote) returns (w': World)
    requires Open(w, env, i, a) && w.gov.motions[i].voterCount < U32_MAX
    requires b !in w.gov.motions[i].ballots && May(w.gov, i, w.tokens[a], b) && w.tokens[a].Balance(b) > 0
    ensures w' == Apply(w, CastTx(env, b, i, vote)) && i < |w'.gov.motions|
    ensures var (m, balance) := (w.gov.motions[i], w.tokens[a].Balance(b));
      w'.gov.motions[i].Total() == m.Total() + if m.Weight(vote) + balance <= I128_MAX then balance else 0
  {
    CastOutcome(w, env, i, a, b, vote);
    w' := Apply(w, CastTx(env, b, i, vote));
    if w' != w {
      CastTotal(w.gov.motions[i], b, VoteRecord(vote, w.tokens[a].Balance(b)), w.gov.motions[i].voterCount + 1);
    }
  }

  // ------------------------------------------------------------------ gathering the records on one option

  /** Only addresses that sign have votes on record. */
  predicate Signed(m: Motion) {
    forall b :: b in m.ballots ==> b.Other?
  }

  predicate AllSigned(ms: seq<Motion>) {
    forall i {:trigger Signed(ms[i])} :: 0 <= i < |ms| ==> Signed(ms[i])
  }

  lemma EventKeepsSigned(m: Motion, env: Env, e: Event)
    requires Signed(m) && Allowed(m, env, e) && (e.Voted? ==> e.voter.Other?)
    ensures Signed(Effect(m, env, e))
  {
  }

  /** Whoever casts has signed. */
  lemma VoterSigns(w: World, tx: Tx, i: nat)
    ensures Happens(w, tx, i).Voted? ==> Happens(w, tx, i).voter.Other?
  {
  }

  lemma ApplyKeepsSigned(w: World, tx: Tx)
    requires AllSigned(w.gov.motions)
    ensures AllSigned(Apply(w, tx).gov.motions)
  {
    TxShape(w, tx);
    var (ms, ms') := (w.gov.motions, Apply(w, tx).gov.motions);
    forall i | 0 <= i < |ms'| ensures Signed(ms'[i]) {
      if i < |ms| {
        VoterSigns(w, tx, i);
        EventKeepsSigned(ms[i], tx.env, Happens(w, tx, i));
      } else {
        Lifecycle.Appears(w, tx);
      }
    }
  }

  /** In every run from deployment all votes on record are by addresses that sign. */
  lemma {:induction false} RunKeepsSigned(ws: seq<World>, txs: seq<Tx>, k: nat)
    requires Run(ws, txs) && Genesis(ws[0]) && k <= |txs|
    ensures AllSigned(ws[k].gov.motions)
  {
    if k > 0 {
      RunKeepsSigned(ws, txs, k - 1);
      assert StepAt(ws, txs, k - 1);
      ApplyKeepsSigned(ws[k - 1], txs[k - 1]);
    }
  }

  /** The voters on record for something else than Yes. */
  function Dissent(m: Motion): set<Address> {
    set b | b in m.ballots && m.ballots[b].vote != Yes
  }

  function ChangeTx(env: Env, caller: Address, i: u64): Tx {
    Tx(env, caller, ToGovernance(On(i, ChangeCall(Yes))))
  }

  /** Voter b turned to Yes. */
  function Turned(m: Motion, b: Address): Motion
    requires b in m.ballots
  {
    m.(ballots := m.ballots[b := VoteRecord(Yes, m.ballots[b].weight)])
  }

  lemma ChangeOutcome(w: World, env: Env, i: u64, a: Address, b: Address)
    requires Open(w, env, i, a) && b.Other? && b in Dissent(w.gov.motions[i]) && w.gov.motions[i].Total() <= I128_MAX
    ensures var w' := Apply(w, ChangeTx(env, b, i));
      Open(w', env, i, a) && w' == w.(gov := w.gov.Put(i, Turned(w.gov.motions[i], b)))
  {
    var m := w.gov.motions[i];
    WeightsNonNegative(m);
    assert m.Weight(Yes) + m.ballots[b].weight <= m.Total();
    EventKeepsMotionOk(m, env, Changed(b, Yes));
  }

  lemma TurnKeepsTotal(m: Motion, b: Address)
    requires b in m.ballots
    ensures Turned(m, b).Total() == m.Total()
  {
    TotalIsSum(m);
    TotalIsSum(Turned(m, b));
    Put(m.ballots, b, VoteRecord(Yes, m.ballots[b].weight), WeightOf);
  }

  lemma TurnKeepsReach(g: Gov, i: nat, t: T.Token, s: set<Address>, b: Address, x: Address)
    requires i < |g.motions| && b in g.motions[i].ballots
    ensures var g' := g.Put(i, Turned(g.motions[i], b));
      && ReachWithin(g', i, t, s, x) == ReachWithin(g, i, t, s, x)
      && (x in Raisable(g', i, t) <==> x in Raisable(g, i, t))
  {
  }

  /** Turning a vote changes nobody's reach or chance to raise the tally. */
  lemma TurnKeepsPeak(g: Gov, i: nat, t: T.Token, s: set<Address>, b: Address)
    requires i < |g.motions| && b in g.motions[i].ballots
    ensures var g' := g.Put(i, Turned(g.motions[i], b));
      PeakOf(g', i, t, s) == PeakOf(g, i, t, s) && Raisable(g', i, t) == Raisable(g, i, t)
  {
    var g' := g.Put(i, Turned(g.motions[i], b));
    forall x ensures ReachWithin(g', i, t, s, x) == ReachWithin(g, i, t, s, x)
      ensures x in Raisable(g', i, t) <==> x in Raisable(g, i, t)
    {
      TurnKeepsReach(g, i, t, s, b, x);
    }
    assert Turned(g.motions[i], b).ballots.Keys == g.motions[i].ballots.Keys;
    assert ReachesWithin(g', i, t, s) == ReachesWithin(g, i, t, s);
  }

  lemma TurnShortens(m: Motion, b: Address)
    requires b in Dissent(m)
    ensures |Dissent(Turned(m, b))| < |Dissent(m)|
    ensures Signed(m) ==> Signed(Turned(m, b))
  {
    assert Dissent(Turned(m, b)) == Dissent(m) - {b};
  }

  lemma NoDissent(m: Motion)
    requires PositiveWeights(m) && Dissent(m) == {}
    ensures m.Weight(No) == 0 && m.Weight(Abstain) == 0
  {
    forall b | b in m.ballots ensures m.ballots[b].vote == Yes {
      assert b !in Dissent(m);
    }
    WeightsNonNegative(m);
    NothingPositive(m.ballots, WeightFor(No));
    NothingPositive(m.ballots, WeightFor(Abstain));
  }

  // ------------------------------------------------------------------ the exact condition

  /** An open vote that the addresses in s can carry beyond the supply, its tally being within it. */
  ghost predicate OverPeak(w: World, env: Env, i: nat, a: Address, s: set<Address>) {
    && Open(w, env, i, a) && CanRaise(w.gov, i, w.tokens[a], s) && Signed(w.gov.motions[i])
    && w.gov.motions[i].Total() <= w.tokens[a].Supply() < PeakOf(w.gov, i, w.tokens[a], s)
  }

  /** Already beyond the supply, or still on the way and nearer to it. */
  ghost predicate Nearer(w': World, s': set<Address>, w: World, s: set<Address>, env: Env, i: nat, a: Address)
    requires i < |w.gov.motions| && a in w.tokens
  {
    && w'.tokens == w.tokens && i < |w'.gov.motions|
    && (w'.gov.motions[i].Total() > w.tokens[a].Supply()
        || (OverPeak(w', env, i, a, s') && Fewer(w'.gov.motions[i], s', w.gov.motions[i], s)))
  }

  ghost predicate Fewer(m': Motion, s': set<Address>, m: Motion, s: set<Address>) {
    |Dissent(m')| < |Dissent(m)| || (|Dissent(m')| == |Dissent(m)| && StepsLeft(m', s', m, s))
  }

  lemma TurnOne(w: World, env: Env, i: u64, a: Address, s: set<Address>) returns (w': World, tx: Tx)
    requires OverPeak(w, env, i, a, s) && Dissent(w.gov.motions[i]) != {}
    ensures IsVote(tx, i) && ComesBefore(w, tx, w') && Nearer(w', s, w, s, env, i, a)
  {
    var b :| b in Dissent(w.gov.motions[i]);
    tx := ChangeTx(env, b, i);
    w' := Apply(w, tx);
    ChangeOutcome(w, env, i, a, b);
    TurnKeepsTotal(w.gov.motions[i], b);
    TurnKeepsPeak(w.gov, i, w.tokens[a], s, b);
    TurnShortens(w.gov.motions[i], b);
    Precedes(w, tx);
  }

  /** A cast goes to Yes, which holds everything so far, or to No, which then is empty. */
  lemma VoteThatFits(m: Motion, balance: i128) returns (vote: Vote)
    requires PositiveWeights(m) && Dissent(m) == {}
    ensures m.Weight(vote) + balance <= I128_MAX
    ensures vote != Yes ==> m.Weight(Yes) + balance > I128_MAX
  {
    NoDissent(m);
    vote := if m.Weight(Yes) + balance <= I128_MAX then Yes else No;
  }

  /** With everybody on Yes, one more step up. A cast too heavy for the Yes tally goes to No and passes the supply at
      once. */
  lemma RaiseOne(w: World, env: Env, i: u64, a: Address, s: set<Address>)
    returns (w': World, s': set<Address>, tx: Tx)
    requires OverPeak(w, env, i, a, s) && Dissent(w.gov.motions[i]) == {}
    ensures IsVote(tx, i) && ComesBefore(w, tx, w') && Nearer(w', s', w, s, env, i, a)
  {
    var (m, t) := (w.gov.motions[i], w.tokens[a]);
    if s == {} { PeakOfNobody(w.gov, i, t); }
    var b :| b in s;
    var vote := VoteThatFits(m, t.Balance(b));
    w', tx := RaiseOnce(w, env, i, a, s, b, vote);
    s' := Waiting(m, s, b);
    RaiseEnds(m, w'.gov.motions[i], b, VoteRecord(vote, t.Balance(b)));
  }

  lemma RaiseEnds(m: Motion, m': Motion, b: Address, r: VoteRecord)
    requires PositiveWeights(m) && Dissent(m) == {} && Signed(m) && b.Other? && r.weight > 0
    requires if b in m.ballots then m' == m.(ballots := m.ballots - {b})
      else m' == m.(ballots := m.ballots[b := r], voterCount := m'.voterCount)
    requires b !in m.ballots && r.vote != Yes ==> m.Weight(Yes) + r.weight > I128_MAX
    ensures Signed(m')
    ensures if b in m.ballots then Dissent(m') == {} && m'.Total() <= m.Total()
      else
        && m'.Total() == m.Total() + r.weight
        && (r.vote == Yes ==> Dissent(m') == {})
        && (r.vote != Yes ==> m'.Total() > I128_MAX)
  {
    if b in m.ballots {
      RetractedTotal(m, b);
    } else {
      CastTotal(m, b, r, m'.voterCount);
      NoDissent(m);
    }
    forall x | x in m.ballots ensures m.ballots[x].vote == Yes { assert x !in Dissent(m); }
  }

  lemma OneMoreVote(w: World, tx: Tx, w': World, i: nat, limit: int)
    requires IsVote(tx, i) && ComesBefore(w, tx, w') && !NeverExceeds(w', i, limit)
    ensures !NeverExceeds(w, i, limit)
  {
    var ws: seq<World>, txs: seq<Tx> :| Run(ws, txs) && ws[0] == w' && VotesOn(txs, i) && i < |ws[|txs|].gov.motions|
      && ws[|txs|].gov.motions[i].Total() > limit;
    assert Run([w] + ws, [tx] + txs) && ([w] + ws)[|[tx] + txs|] == ws[|txs|];
  }

  lemma BeyondAlready(w: World, i: nat, limit: int)
    requires i < |w.gov.motions| && w.gov.motions[i].Total() > limit
    ensures !NeverExceeds(w, i, limit)
  {
    var ws: seq<World>, txs: seq<Tx> := [w], [];
    assert Run(ws, txs) && VotesOn(txs, i) && ws[|txs|] == w;
  }

  lemma {:induction false} OverPeakExceeds(w: World, env: Env, i: u64, a: Address, s: set<Address>)
    requires OverPeak(w, env, i, a, s)
    ensures !NeverExceeds(w, i, w.tokens[a].Supply())
    decreases |Dissent(w.gov.motions[i])|, |s|, |s * w.gov.motions[i].ballots.Keys|
  {
    var w', s', tx := w, s, RetractTx(env, a, i);
    if Dissent(w.gov.motions[i]) != {} {
      w', tx := TurnOne(w, env, i, a, s);
    } else {
      w', s', tx := RaiseOne(w, env, i, a, s);
    }
    if w'.gov.motions[i].Total() > w.tokens[a].Supply() {
      BeyondAlready(w', i, w.tokens[a].Supply());
    } else {
      OverPeakExceeds(w', env, i, a, s');
    }
    OneMoreVote(w, tx, w', i, w.tokens[a].Supply());
  }

  lemma UnfitExceeds(w: World, env: Env, i: u64, a: Address)
    requires Open(w, env, i, a) && Signed(w.gov.motions[i])
    requires !Fits(w.gov, i, w.tokens[a], w.tokens[a].Supply())
    ensures !NeverExceeds(w, i, w.tokens[a].Supply())
  {
    var (g, t) := (w.gov, w.tokens[a]);
    var s :| g.motions[i].voterCount + |s| <= U32_MAX && PeakOf(g, i, t, s) > t.Supply();
    PeakOfRaisable(g, i, t, s);
    NoMore(s * Raisable(g, i, t), s);
    if g.motions[i].Total() > t.Supply() {
      BeyondAlready(w, i, t.Supply());
    } else {
      OverPeakExceeds(w, env, i, a, s * Raisable(g, i, t));
    }
  }

  /** The voter count has room for everybody who can raise the tally. */
  ghost predicate Countable(g: Gov, i: nat, t: T.Token)
    requires i < |g.motions|
  {
    g.motions[i].voterCount + |Raisable(g, i, t)| <= U32_MAX
  }

  lemma CountableFitsIff(g: Gov, i: nat, t: T.Token, limit: int)
    requires i < |g.motions| && PositiveWeights(g.motions[i]) && T.NonNegative(t) && Countable(g, i, t)
    ensures Fits(g, i, t, limit) <==> Peak(g, i, t) <= limit
  {
    PeakOfRaisable(g, i, t, Raisable(g, i, t));
    if Peak(g, i, t) <= limit { PeakWithinFits(g, i, t, limit); }
  }

  /** The exact condition. No run of casts, retractions and changes on an open motion, by whomever and whenever,
      carries its tally beyond the supply if and only if the peak of no set of casters that the voter count has room
      for is beyond it; where there is room for everybody, if and only if the peak is within the supply. (All votes on
      record are signed in every run from deployment.) */
  lemma TallyStaysWithinSupplyIff(w: World, env: Env, i: u64, a: Address)
    requires Open(w, env, i, a) && Signed(w.gov.motions[i])
    ensures var (g, t) := (w.gov, w.tokens[a]);
      && (NeverExceeds(w, i, t.Supply()) <==> Fits(g, i, t, t.Supply()))
      && (Countable(g, i, t) ==> (NeverExceeds(w, i, t.Supply()) <==> Peak(g, i, t) <= t.Supply()))
  {
    var (g, t) := (w.gov, w.tokens[a]);
    if Fits(g, i, t, t.Supply()) {
      FittingIsSafe(w, i, a, t.Supply());
    } else {
      UnfitExceeds(w, env, i, a);
    }
    if Countable(g, i, t) { CountableFitsIff(g, i, t, t.Supply()); }
  }
}
