/** How the governance contract lays motions out in storage: a proposal entry per id with running
    tallies, has-voted flags and vote records per (id, voter), choice weights per (id, index), a count
    of active proposals and a last-proposal time per address. Each predicate relates one kind of entry
    to the motions it stands for; the lemmas say what a single storage write keeps. */
module GovernanceStorage {
  import opened Host
  import opened GovernanceSpec
  import opened GovernanceLaws
  import opened MapSum

  datatype Proposal = Proposal(
    id: u64, proposer: Address, title: string, description: string, link: Option<string>,
    votesYes: i128, votesNo: i128, votesAbstain: i128, quorum: i128, startTime: u64, endTime: u64,
    state: ProposalState, snapshotLedger: u32, voterCount: u32,
    treasuryAction: seq<TreasuryAction>, choices: seq<string>, winningChoice: Option<nat>,
    cancellationReason: Option<string>)

  function Tally(p: Proposal, v: Vote): i128 {
    match v
    case Yes => p.votesYes
    case No => p.votesNo
    case Abstain => p.votesAbstain
  }

  function WithTally(p: Proposal, v: Vote, tally: i128): Proposal {
    match v
    case Yes => p.(votesYes := tally)
    case No => p.(votesNo := tally)
    case Abstain => p.(votesAbstain := tally)
  }

  /** Everything an entry and its motion share but the tallies. */
  predicate SameTerms(p: Proposal, id: nat, m: Motion) {
    && p.id == id && p.proposer == m.proposer
    && p.title == m.title && p.description == m.description && p.link == m.link
    && p.quorum == m.quorum && p.startTime == m.startTime && p.endTime == m.endTime && p.state == m.state
    && p.snapshotLedger == m.snapshotLedger && p.voterCount == m.voterCount
    && p.treasuryAction == (if m.action.Some? then [m.action.value] else [])
    && |p.choices| == |m.choiceVotes| <= U32_MAX && p.winningChoice == m.winner
    && p.cancellationReason == m.cancellationReason
  }

  /** One proposal entry stands for one motion; its tallies are the sums of the motion's ballots. */
  ghost predicate Stands(p: Proposal, id: nat, m: Motion) {
    SameTerms(p, id, m) && forall v {:trigger Tally(p, v)} :: Tally(p, v) == m.Weight(v)
  }

  /** Stored ids are exactly 0..count-1, each entry standing for its motion. */
  ghost predicate Proposals(proposals: map<u64, Proposal>, count: u64, ms: seq<Motion>) {
    && count == |ms|
    && (forall id: u64 :: id in proposals <==> id < count)
    && (forall id: u64 {:trigger Stands(proposals[id], id, ms[id])} ::
          id in proposals ==> Stands(proposals[id], id, ms[id]))
  }

  predicate Flagged(hasVoted: map<(u64, Address), bool>, k: (u64, Address)) {
    k in hasVoted && hasVoted[k]
  }

  /** A voter is flagged exactly where a record exists, and the record is the voter's ballot. */
  ghost predicate RecordAt(hasVoted: map<(u64, Address), bool>, records: map<(u64, Address), VoteRecord>,
                           ms: seq<Motion>, id: u64, a: Address) {
    && (Flagged(hasVoted, (id, a)) <==> (id, a) in records)
    && ((id, a) in records <==> id < |ms| && a in ms[id].ballots)
    && ((id, a) in records ==> records[(id, a)] == ms[id].ballots[a])
  }

  ghost predicate Records(hasVoted: map<(u64, Address), bool>, records: map<(u64, Address), VoteRecord>,
                          ms: seq<Motion>) {
    forall id: u64, a: Address :: RecordAt(hasVoted, records, ms, id, a)
  }

  /** The stored last-proposal time is the start of the address's latest motion. */
  ghost predicate LastAt(last: map<Address, u64>, ms: seq<Motion>, a: Address) {
    LatestStart(ms, a) == if a in last then Some(last[a]) else None
  }

  ghost predicate Counters(active: u64, last: map<Address, u64>, ms: seq<Motion>) {
    && active == ActiveCount(ms)
    && (forall a: Address :: LastAt(last, ms, a))
  }

  function ChoiceWeight(choiceVotes: map<(u64, u32), i128>, id: u64, index: u32): i128 {
    if (id, index) in choiceVotes then choiceVotes[(id, index)] else 0
  }

  ghost predicate ChoiceAt(choiceVotes: map<(u64, u32), i128>, ms: seq<Motion>, id: u64, n: u32) {
    id < |ms| && n < |ms[id].choiceVotes| ==> ms[id].choiceVotes[n] == ChoiceWeight(choiceVotes, id, n)
  }

  ghost predicate Choices(choiceVotes: map<(u64, u32), i128>, ms: seq<Motion>) {
    forall id: u64, n: u32 :: ChoiceAt(choiceVotes, ms, id, n)
  }

  // ------------------------------------------------------------------ single writes

  lemma WriteProposal(proposals: map<u64, Proposal>, count: u64, ms: seq<Motion>, id: u64, p: Proposal, m: Motion)
    requires Proposals(proposals, count, ms) && id < count && Stands(p, id, m)
    ensures Proposals(proposals[id := p], count, ms[id := m])
  {
  }

  lemma AddProposal(proposals: map<u64, Proposal>, count: u64, ms: seq<Motion>, p: Proposal, m: Motion)
    requires Proposals(proposals, count, ms) && count < U64_MAX && Stands(p, count, m)
    ensures Proposals(proposals[count := p], count + 1, ms + [m])
  {
  }

  lemma WriteKeepsRecords(hasVoted: map<(u64, Address), bool>, records: map<(u64, Address), VoteRecord>,
                          ms: seq<Motion>, id: u64, m: Motion)
    requires Records(hasVoted, records, ms) && id < |ms| && m.ballots == ms[id].ballots
    ensures Records(hasVoted, records, ms[id := m])
  {
    var ms' := ms[id := m];
    forall i: u64, a: Address ensures RecordAt(hasVoted, records, ms', i, a) {
      assert RecordAt(hasVoted, records, ms, i, a);
    }
  }

  lemma AddKeepsRecords(hasVoted: map<(u64, Address), bool>, records: map<(u64, Address), VoteRecord>,
                        ms: seq<Motion>, m: Motion)
    requires Records(hasVoted, records, ms) && m.ballots == map[]
    ensures Records(hasVoted, records, ms + [m])
  {
    var ms' := ms + [m];
    forall i: u64, a: Address ensures RecordAt(hasVoted, records, ms', i, a) {
      assert RecordAt(hasVoted, records, ms, i, a);
    }
  }

  lemma WriteRecord(hasVoted: map<(u64, Address), bool>, records: map<(u64, Address), VoteRecord>, ms: seq<Motion>,
                    id: u64, m: Motion,
                    voter: Address, r: VoteRecord)
    requires Records(hasVoted, records, ms) && id < |ms| && m.ballots == ms[id].ballots[voter := r]
    ensures Records(hasVoted[(id, voter) := true], records[(id, voter) := r], ms[id := m])
  {
    var flags, records', ms' := hasVoted[(id, voter) := true], records[(id, voter) := r], ms[id := m];
    forall i: u64, a: Address ensures RecordAt(flags, records', ms', i, a) {
      assert RecordAt(hasVoted, records, ms, i, a);
    }
  }

  lemma RemoveRecord(hasVoted: map<(u64, Address), bool>, records: map<(u64, Address), VoteRecord>, ms: seq<Motion>,
                     id: u64, m: Motion,
                     voter: Address)
    requires Records(hasVoted, records, ms) && id < |ms| && m.ballots == ms[id].ballots - {voter}
    ensures Records(hasVoted[(id, voter) := false], records - {(id, voter)}, ms[id := m])
  {
    var flags, records', ms' := hasVoted[(id, voter) := false], records - {(id, voter)}, ms[id := m];
    forall i: u64, a: Address ensures RecordAt(flags, records', ms', i, a) {
      assert RecordAt(hasVoted, records, ms, i, a);
    }
  }

  lemma WriteKeepsCounters(active: u64, last: map<Address, u64>, ms: seq<Motion>, id: nat, m: Motion)
    requires Counters(active, last, ms) && id < |ms|
    requires m.proposer == ms[id].proposer && m.startTime == ms[id].startTime
    ensures m.state == ms[id].state || (ms[id].state != Active && m.state != Active) ==>
      Counters(active, last, ms[id := m])
    ensures ms[id].state == Active && m.state != Active ==> active > 0 && Counters(active - 1, last, ms[id := m])
  {
    PutMotion(ms, id, m);
    var ms' := ms[id := m];
    forall a: Address ensures LastAt(last, ms', a) {
      assert LastAt(last, ms, a);
      PutKeepsLatest(ms, id, m, a);
    }
    CountPositive(ms);
  }

  lemma AddKeepsCounters(active: u64, last: map<Address, u64>, ms: seq<Motion>, m: Motion)
    requires Counters(active, last, ms) && m.state == Active && active < U64_MAX
    ensures Counters(active + 1, last[m.proposer := m.startTime], ms + [m])
  {
    assert (ms + [m])[..|ms|] == ms;
    var last', ms' := last[m.proposer := m.startTime], ms + [m];
    forall a: Address ensures LastAt(last', ms', a) {
      assert LastAt(last, ms, a);
    }
  }

  lemma WriteKeepsChoices(choiceVotes: map<(u64, u32), i128>, ms: seq<Motion>, id: nat, m: Motion)
    requires Choices(choiceVotes, ms) && id < |ms| && m.choiceVotes == ms[id].choiceVotes
    ensures Choices(choiceVotes, ms[id := m])
  {
    var ms' := ms[id := m];
    forall i: u64, n: u32 ensures ChoiceAt(choiceVotes, ms', i, n) {
      assert ChoiceAt(choiceVotes, ms, i, n);
    }
  }

  lemma AddKeepsChoices(choiceVotes: map<(u64, u32), i128>, ms: seq<Motion>, m: Motion)
    requires Choices(choiceVotes, ms) && m.choiceVotes == []
    ensures Choices(choiceVotes, ms + [m])
  {
    var ms' := ms + [m];
    forall i: u64, n: u32 ensures ChoiceAt(choiceVotes, ms', i, n) {
      assert ChoiceAt(choiceVotes, ms, i, n);
    }
  }

  /** What no storage write changes about a motion. */
  predicate SameOrigin(m: Motion, m0: Motion) {
    m.proposer == m0.proposer && m.startTime == m0.startTime && m.choiceVotes == m0.choiceVotes
  }

  lemma PutKeepsGovOk(g: Gov, id: nat, m: Motion)
    requires GovOk(g) && id < |g.motions| && MotionOk(m)
    requires m.state == Active ==> g.motions[id].state == Active
    ensures GovOk(g.Put(id, m))
  {
    PutMotion(g.motions, id, m);
  }

  // ------------------------------------------------------------------ the whole storage

  /** Persistent entries and the two stored counts, as one value. */
  datatype Store = Store(
    proposals: map<u64, Proposal>, count: u64, active: u64, last: map<Address, u64>,
    hasVoted: map<(u64, Address), bool>, records: map<(u64, Address), VoteRecord>, choiceVotes: map<(u64, u32), i128>)

  /** The storage stands for the motions of a well-formed governance state. */
  ghost predicate Represents(s: Store, g: Gov) {
    && GovOk(g)
    && Proposals(s.proposals, s.count, g.motions)
    && Records(s.hasVoted, s.records, g.motions)
    && Counters(s.active, s.last, g.motions)
    && Choices(s.choiceVotes, g.motions)
  }

  /** m may replace motion id without touching its records or origin. */
  ghost predicate Replaces(g: Gov, id: nat, p: Proposal, m: Motion) {
    id < |g.motions| && Stands(p, id, m) && MotionOk(m) && SameOrigin(m, g.motions[id])
  }

  lemma StoreProposal(s: Store, g: Gov, id: u64, p: Proposal, m: Motion)
    requires Represents(s, g) && Replaces(g, id, p, m) && m.ballots == g.motions[id].ballots
    requires m.state == g.motions[id].state || (g.motions[id].state != Active && m.state != Active)
    ensures Represents(s.(proposals := s.proposals[id := p]), g.Put(id, m))
  {
    WriteProposal(s.proposals, s.count, g.motions, id, p, m);
    WriteKeepsRecords(s.hasVoted, s.records, g.motions, id, m);
    WriteKeepsCounters(s.active, s.last, g.motions, id, m);
    WriteKeepsChoices(s.choiceVotes, g.motions, id, m);
    PutKeepsGovOk(g, id, m);
  }

  lemma CloseProposal(s: Store, g: Gov, id: u64, p: Proposal, m: Motion)
    requires Represents(s, g) && Replaces(g, id, p, m) && m.ballots == g.motions[id].ballots
    requires g.motions[id].state == Active && m.state != Active
    ensures s.active > 0
    ensures Represents(s.(proposals := s.proposals[id := p], active := s.active - 1), g.Put(id, m))
  {
    WriteProposal(s.proposals, s.count, g.motions, id, p, m);
    WriteKeepsRecords(s.hasVoted, s.records, g.motions, id, m);
    WriteKeepsCounters(s.active, s.last, g.motions, id, m);
    WriteKeepsChoices(s.choiceVotes, g.motions, id, m);
    PutKeepsGovOk(g, id, m);
  }

  lemma StoreRecord(s: Store, g: Gov, id: u64, p: Proposal, m: Motion, voter: Address, r: VoteRecord)
    requires Represents(s, g) && Replaces(g, id, p, m) && m.ballots == g.motions[id].ballots[voter := r]
    requires m.state == g.motions[id].state
    ensures Represents(s.(proposals := s.proposals[id := p], hasVoted := s.hasVoted[(id, voter) := true],
                          records := s.records[(id, voter) := r]), g.Put(id, m))
  {
    WriteProposal(s.proposals, s.count, g.motions, id, p, m);
    WriteRecord(s.hasVoted, s.records, g.motions, id, m, voter, r);
    WriteKeepsCounters(s.active, s.last, g.motions, id, m);
    WriteKeepsChoices(s.choiceVotes, g.motions, id, m);
    PutKeepsGovOk(g, id, m);
  }

  lemma EraseRecord(s: Store, g: Gov, id: u64, p: Proposal, m: Motion, voter: Address)
    requires Represents(s, g) && Replaces(g, id, p, m) && m.ballots == g.motions[id].ballots - {voter}
    requires m.state == g.motions[id].state
    ensures Represents(s.(proposals := s.proposals[id := p], hasVoted := s.hasVoted[(id, voter) := false],
                          records := s.records - {(id, voter)}), g.Put(id, m))
  {
    WriteProposal(s.proposals, s.count, g.motions, id, p, m);
    RemoveRecord(s.hasVoted, s.records, g.motions, id, m, voter);
    WriteKeepsCounters(s.active, s.last, g.motions, id, m);
    WriteKeepsChoices(s.choiceVotes, g.motions, id, m);
    PutKeepsGovOk(g, id, m);
  }

  lemma StoreNew(s: Store, g: Gov, p: Proposal, d: Draft, proposer: Address, env: Env)
    requires Represents(s, g) && s.count < U64_MAX && s.active < 50 && g.config.ready
    requires CheckDraft(d) == Pass && env.now + d.duration <= U64_MAX && Stands(p, s.count, Draw(d, proposer, env))
    ensures Represents(s.(proposals := s.proposals[s.count := p], count := s.count + 1, active := s.active + 1,
                          last := s.last[proposer := env.now]), g.(motions := g.motions + [Draw(d, proposer, env)]))
  {
    var m := Draw(d, proposer, env);
    DrawnMotionOk(d, proposer, env);
    AddProposal(s.proposals, s.count, g.motions, p, m);
    AddKeepsRecords(s.hasVoted, s.records, g.motions, m);
    AddKeepsCounters(s.active, s.last, g.motions, m);
    AddKeepsChoices(s.choiceVotes, g.motions, m);
  }

  /** A configuration call leaves the storage standing for the same motions. */
  lemma Reconfigure(s: Store, g: Gov, caller: Address, setting: ConfigCall)
    requires Represents(s, g) && StepConfig(g, caller, setting).Ok?
    ensures Represents(s, StepConfig(g, caller, setting).value)
  {
    ConfigKeepsGovOk(g, caller, setting);
    ConfigShape(g, caller, setting);
  }

  /** The entry of a new proposal. */
  function NewEntry(id: u64, d: Draft, proposer: Address, env: Env): Proposal
    requires env.now + d.duration <= U64_MAX
  {
    Proposal(id, proposer, d.title, d.description, d.link, 0, 0, 0, d.quorum, env.now, env.now + d.duration, Active,
             env.sequence, 0, if d.action.Some? then [d.action.value] else [], [], None, None)
  }

  lemma NewStands(id: u64, d: Draft, proposer: Address, env: Env)
    requires env.now + d.duration <= U64_MAX
    ensures Stands(NewEntry(id, d, proposer, env), id, Draw(d, proposer, env))
  {
  }

  // ------------------------------------------------------------------ tallies of an entry

  lemma TallyStands(p: Proposal, id: nat, m: Motion, v: Vote)
    requires Stands(p, id, m)
    ensures Tally(p, v) == m.Weight(v)
  {
  }

  lemma TalliesStand(p: Proposal, id: nat, m: Motion)
    requires Stands(p, id, m)
    ensures p.votesYes == m.Weight(Yes) && p.votesNo == m.Weight(No) && p.votesAbstain == m.Weight(Abstain)
    ensures m.Total() == p.votesYes + p.votesNo + p.votesAbstain
  {
    TallyStands(p, id, m, Yes);
    TallyStands(p, id, m, No);
    TallyStands(p, id, m, Abstain);
  }

  /** An entry whose tallies are untouched keeps standing when its motion's ballots are untouched. */
  lemma TermsStand(p: Proposal, id: nat, m: Motion, p': Proposal, m': Motion)
    requires Stands(p, id, m) && SameTerms(p', id, m') && m'.ballots == m.ballots
    requires p'.votesYes == p.votesYes && p'.votesNo == p.votesNo && p'.votesAbstain == p.votesAbstain
    ensures Stands(p', id, m')
  {
    forall v ensures Tally(p', v) == m'.Weight(v) {
      assert Tally(p', v) == Tally(p, v);
    }
  }

  /** The entry after a cast: its tally holds the weight and the voter count is one higher. */
  function CountedEntry(p: Proposal, r: VoteRecord): Proposal
    requires I128_MIN <= Tally(p, r.vote) + r.weight <= I128_MAX && p.voterCount < U32_MAX
  {
    WithTally(p, r.vote, Tally(p, r.vote) + r.weight).(voterCount := p.voterCount + 1)
  }

  lemma CastTally(p: Proposal, id: nat, m: Motion, env: Env, voter: Address, r: VoteRecord, v: Vote)
    requires Stands(p, id, m) && Allowed(m, env, Voted(voter, r))
    requires I128_MIN <= Tally(p, r.vote) + r.weight <= I128_MAX && p.voterCount < U32_MAX
    ensures Tally(CountedEntry(p, r), v) == Effect(m, env, Voted(voter, r)).Weight(v)
  {
    TallyStands(p, id, m, v);
    EventMovesTally(m, env, Voted(voter, r), v);
  }

  /** The counted entry stands for the motion with the new ballot. */
  lemma CastStands(p: Proposal, id: nat, m: Motion, env: Env, voter: Address, r: VoteRecord)
    requires Stands(p, id, m) && Allowed(m, env, Voted(voter, r))
    ensures I128_MIN <= Tally(p, r.vote) + r.weight <= I128_MAX && p.voterCount < U32_MAX
    ensures Stands(CountedEntry(p, r), id, Effect(m, env, Voted(voter, r)))
  {
    TallyStands(p, id, m, r.vote);
    forall v ensures Tally(CountedEntry(p, r), v) == Effect(m, env, Voted(voter, r)).Weight(v) {
      CastTally(p, id, m, env, voter, r, v);
    }
  }

  /** The unchecked subtraction of a retraction never leaves its tally negative. */
  lemma RetractFits(p: Proposal, id: nat, m: Motion, env: Env, voter: Address)
    requires Stands(p, id, m) && MotionOk(m) && Allowed(m, env, Retracted(voter))
    ensures var r := m.ballots[voter]; 0 < r.weight && 0 <= Tally(p, r.vote) - r.weight
  {
    TallyStands(p, id, m, m.ballots[voter].vote);
    RecordWithinTally(m, voter);
  }

  /** The entry after a record of weight r.weight has left its tally. */
  function ReducedEntry(p: Proposal, r: VoteRecord): Proposal
    requires I128_MIN <= Tally(p, r.vote) - r.weight <= I128_MAX
  {
    WithTally(p, r.vote, Tally(p, r.vote) - r.weight)
  }

  lemma RetractedTally(p: Proposal, id: nat, m: Motion, env: Env, voter: Address, v: Vote)
    requires Stands(p, id, m) && Allowed(m, env, Retracted(voter))
    requires var r := m.ballots[voter]; I128_MIN <= Tally(p, r.vote) - r.weight <= I128_MAX
    ensures Tally(ReducedEntry(p, m.ballots[voter]), v) == Effect(m, env, Retracted(voter)).Weight(v)
  {
    TallyStands(p, id, m, v);
    EventMovesTally(m, env, Retracted(voter), v);
  }

  lemma RetractStands(p: Proposal, id: nat, m: Motion, env: Env, voter: Address)
    requires Stands(p, id, m) && Allowed(m, env, Retracted(voter))
    requires var r := m.ballots[voter]; 0 < r.weight && 0 <= Tally(p, r.vote) - r.weight
    ensures Stands(ReducedEntry(p, m.ballots[voter]), id, Effect(m, env, Retracted(voter)))
  {
    var p' := ReducedEntry(p, m.ballots[voter]);
    forall v ensures Tally(p', v) == Effect(m, env, Retracted(voter)).Weight(v) {
      RetractedTally(p, id, m, env, voter, v);
    }
  }

  /** The entry after r's weight has moved to the tally for `vote`. */
  function MovedEntry(p: Proposal, r: VoteRecord, vote: Vote): Proposal
    requires r.vote != vote && I128_MIN <= Tally(p, r.vote) - r.weight <= I128_MAX
    requires I128_MIN <= Tally(p, vote) + r.weight <= I128_MAX
  {
    WithTally(ReducedEntry(p, r), vote, Tally(p, vote) + r.weight)
  }

  lemma MovedTally(p: Proposal, r: VoteRecord, vote: Vote, v: Vote)
    requires r.vote != vote && I128_MIN <= Tally(p, r.vote) - r.weight <= I128_MAX
    requires I128_MIN <= Tally(p, vote) + r.weight <= I128_MAX
    ensures Tally(MovedEntry(p, r, vote), v) ==
      Tally(p, v) + (if v == vote then r.weight else 0) - (if v == r.vote then r.weight else 0)
  {
  }

  /** Both sums of a vote change are in range. */
  lemma ChangeFits(p: Proposal, id: nat, m: Motion, env: Env, voter: Address, vote: Vote)
    requires Stands(p, id, m) && MotionOk(m) && Allowed(m, env, Changed(voter, vote))
    ensures var r := m.ballots[voter];
      0 < r.weight && 0 <= Tally(p, r.vote) - r.weight && 0 <= Tally(p, vote) && Tally(p, vote) + r.weight <= I128_MAX
  {
    TallyStands(p, id, m, m.ballots[voter].vote);
    TallyStands(p, id, m, vote);
    RecordWithinTally(m, voter);
  }

  lemma ChangedTally(p: Proposal, id: nat, m: Motion, env: Env, voter: Address, vote: Vote, v: Vote)
    requires Stands(p, id, m) && Allowed(m, env, Changed(voter, vote))
    requires var r := m.ballots[voter];
      I128_MIN <= Tally(p, r.vote) - r.weight <= I128_MAX && I128_MIN <= Tally(p, vote) + r.weight <= I128_MAX
    ensures Tally(MovedEntry(p, m.ballots[voter], vote), v) == Effect(m, env, Changed(voter, vote)).Weight(v)
  {
    MovedTally(p, m.ballots[voter], vote, v);
    TallyStands(p, id, m, v);
    EventMovesTally(m, env, Changed(voter, vote), v);
  }

  /** Moving a record's weight from its old tally to the new one. */
  lemma ChangeStands(p: Proposal, id: nat, m: Motion, env: Env, voter: Address, vote: Vote)
    requires Stands(p, id, m) && Allowed(m, env, Changed(voter, vote))
    requires var r := m.ballots[voter];
      0 < r.weight && 0 <= Tally(p, r.vote) - r.weight && 0 <= Tally(p, vote) && Tally(p, vote) + r.weight <= I128_MAX
    ensures Stands(MovedEntry(p, m.ballots[voter], vote), id, Effect(m, env, Changed(voter, vote)))
  {
    var p' := MovedEntry(p, m.ballots[voter], vote);
    forall v ensures Tally(p', v) == Effect(m, env, Changed(voter, vote)).Weight(v) {
      ChangedTally(p, id, m, env, voter, vote, v);
    }
  }

  /** Taking a record's weight out of its tally cannot underflow, and leaves the other tallies alone. */
  lemma NoUnderflow(g: Gov, id: nat, p: Proposal, voter: Address, v: Vote)
    requires GovOk(g) && id < |g.motions| && Stands(p, id, g.motions[id]) && voter in g.motions[id].ballots
    requires v != g.motions[id].ballots[voter].vote
    ensures var r := g.motions[id].ballots[voter];
      && 0 <= Tally(p, r.vote) - r.weight <= I128_MAX
      && 0 <= g.motions[id].Weight(v) == Tally(ReducedEntry(p, r), v) && 0 < r.weight
  {
    assert MotionOk(g.motions[id]);
    RecordWithinTally(g.motions[id], voter);
    TallyStands(p, id, g.motions[id], g.motions[id].ballots[voter].vote);
    TallyStands(p, id, g.motions[id], v);
  }

  /** What retract_vote writes: the record's weight leaves its tally, and the subtraction cannot underflow. */
  lemma RetractReplaces(g: Gov, id: nat, p: Proposal, env: Env, voter: Address)
    requires id < |g.motions| && Stands(p, id, g.motions[id]) && MotionOk(g.motions[id])
    requires Allowed(g.motions[id], env, Retracted(voter))
    ensures var r := g.motions[id].ballots[voter];
      && 0 < r.weight && 0 <= Tally(p, r.vote) - r.weight
      && Replaces(g, id, ReducedEntry(p, r), Effect(g.motions[id], env, Retracted(voter)))
  {
    RetractFits(p, id, g.motions[id], env, voter);
    RetractStands(p, id, g.motions[id], env, voter);
    EventKeepsMotionOk(g.motions[id], env, Retracted(voter));
  }

  /** What change_vote writes: the record's weight leaves its tally, then enters the other. */
  lemma ChangeReplaces(g: Gov, id: nat, p: Proposal, env: Env, voter: Address, vote: Vote)
    requires id < |g.motions| && Stands(p, id, g.motions[id]) && MotionOk(g.motions[id])
    requires Allowed(g.motions[id], env, Changed(voter, vote))
    ensures var r := g.motions[id].ballots[voter];
      && 0 < r.weight && 0 <= Tally(p, r.vote) - r.weight
      && 0 <= Tally(p, vote) && Tally(p, vote) + r.weight <= I128_MAX
      && Replaces(g, id, MovedEntry(p, r, vote), Effect(g.motions[id], env, Changed(voter, vote)))
  {
    ChangeFits(p, id, g.motions[id], env, voter, vote);
    ChangeStands(p, id, g.motions[id], env, voter, vote);
    EventKeepsMotionOk(g.motions[id], env, Changed(voter, vote));
  }

  // ------------------------------------------------------------------ what the storage says, by itself

  /** The stored vote records of one proposal, by voter. */
  ghost function RecordsOf(records: map<(u64, Address), VoteRecord>, id: u64): map<Address, VoteRecord> {
    map k | k in records && k.0 == id :: k.1 := records[k]
  }

  /** Read off the storage alone: the stored ids are 0..count-1; flags mark exactly the records; every recorded
      weight is positive; each tally of an entry is the sum of the recorded weights for that option; the active
      count counts the Active motions; the last-proposal time is the start of the address's latest motion. */
  lemma StorageIsConsistent(s: Store, g: Gov, id: u64)
    requires Represents(s, g)
    ensures id in s.proposals <==> id < s.count
    ensures s.active == ActiveCount(g.motions) <= 50
    ensures forall p :: p in s.last ==> LatestStart(g.motions, p) == Some(s.last[p])
    ensures forall p :: p !in s.last ==> LatestStart(g.motions, p) == None
    ensures forall a :: Flagged(s.hasVoted, (id, a)) <==> (id, a) in s.records
    ensures forall a :: (id, a) in s.records ==> id in s.proposals && s.records[(id, a)].weight > 0
    ensures id in s.proposals ==>
      && s.proposals[id].state == g.motions[id].state
      && s.proposals[id].votesYes == Sum(RecordsOf(s.records, id), WeightFor(Yes))
      && s.proposals[id].votesNo == Sum(RecordsOf(s.records, id), WeightFor(No))
      && s.proposals[id].votesAbstain == Sum(RecordsOf(s.records, id), WeightFor(Abstain))
  {
    forall p ensures LatestStart(g.motions, p) == if p in s.last then Some(s.last[p]) else None {
      assert LastAt(s.last, g.motions, p);
    }
    forall a ensures Flagged(s.hasVoted, (id, a)) <==> (id, a) in s.records
      ensures (id, a) in s.records ==> id in s.proposals && s.records[(id, a)].weight > 0
    {
      assert RecordAt(s.hasVoted, s.records, g.motions, id, a);
      if (id, a) in s.records {
        assert MotionOk(g.motions[id]);
      }
    }
    if id in s.proposals {
      RecordsAreBallots(s, g, id);
      assert Stands(s.proposals[id], id, g.motions[id]);
      TalliesStand(s.proposals[id], id, g.motions[id]);
    }
  }

  lemma RecordsAreBallots(s: Store, g: Gov, id: u64)
    requires Represents(s, g) && id < s.count
    ensures RecordsOf(s.records, id) == g.motions[id].ballots
  {
    var stored, ballots := RecordsOf(s.records, id), g.motions[id].ballots;
    forall a ensures a in stored <==> a in ballots
      ensures a in stored ==> stored[a] == ballots[a]
    {
      assert RecordAt(s.hasVoted, s.records, g.motions, id, a);
      if a in ballots {
        assert (id, a) in s.records;
      }
    }
    assert stored.Keys == ballots.Keys;
  }
}
