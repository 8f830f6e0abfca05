/** Theorems about one motion over whole runs, for every interleaving of transactions. */
module Lifecycle {
  import opened Host
  import opened SystemSpec
  import opened SystemLaws
  import opened GovernanceLaws
  import opened GovernanceSpec
  import Calls = GovernanceCalls

  /** Motion i exists after j transactions. */
  ghost predicate Exists(ws: seq<World>, j: nat, i: nat) {
    j < |ws| && i < |ws[j].gov.motions|
  }

  ghost function MotionAt(ws: seq<World>, j: nat, i: nat): Motion
    requires Exists(ws, j, i)
  {
    ws[j].gov.motions[i]
  }

  ghost function EventAt(ws: seq<World>, txs: seq<Tx>, j: nat, i: nat): Event
    requires j < |txs| && j < |ws|
  {
    Happens(ws[j], txs[j], i)
  }

  /** One transaction moves the motion by one allowed event. */
  lemma Next(ws: seq<World>, txs: seq<Tx>, j: nat, i: nat)
    requires Run(ws, txs) && j < |txs| && Exists(ws, j, i)
    ensures Exists(ws, j + 1, i)
    ensures var (m, env, e) := (MotionAt(ws, j, i), txs[j].env, EventAt(ws, txs, j, i));
      Allowed(m, env, e) && MotionAt(ws, j + 1, i) == Effect(m, env, e)
  {
    assert StepAt(ws, txs, j);
    TxShape(ws[j], txs[j]);
  }

  lemma Stays(ws: seq<World>, txs: seq<Tx>, j: nat, k: nat, i: nat)
    requires Run(ws, txs) && j <= k <= |txs| && Exists(ws, j, i)
    ensures Exists(ws, k, i)
  {
    MotionsPersist(ws, txs, j, k);
  }

  /** The transaction is a successful call addressed to motion i. */
  ghost predicate Reaches(w: World, tx: Tx, i: nat) {
    tx.call.ToGovernance? && tx.call.gov.On? && tx.call.gov.id == i && Submit(w, tx).Ok?
  }

  /** What happens to a motion is what a successful call addressed to it says. */
  lemma EventsAreCalls(w: World, tx: Tx, i: nat)
    ensures var e := Happens(w, tx, i);
      if !Reaches(w, tx, i) then e == Untouched
      else match tx.call.gov.act
        case AmendCall(title, description) => e == Amended(title, description)
        case CastCall(vote) => e.Voted? && e.voter == tx.caller && e.record.vote == vote
        case RetractCall => e == Retracted(tx.caller)
        case ChangeCall(vote) => e == Changed(tx.caller, vote)
        case FinaliseCall => e == Decided
        case ExecuteCall => e == Paid
        case CancelCall(reason) => e == Withdrawn(reason)
        case UpdateQuorumCall(quorum) => e == Requorumed(quorum)
  {
  }

  // ------------------------------------------------------------------ creation

  /** A motion appears only by a creation, as drafted, with no ballots. */
  lemma Appears(w: World, tx: Tx)
    requires |Apply(w, tx).gov.motions| > |w.gov.motions|
    ensures tx.call.ToGovernance? && tx.call.gov.Create? && tx.caller.Other?
    ensures var d := tx.call.gov.draft;
      && Submit(w, tx).Ok?
      && CreateProposal(w.gov, tx.env, w.tokens, tx.caller, d).Ok?
      && Apply(w, tx).gov.motions == w.gov.motions + [Draw(d, tx.caller, tx.env)]
  {
    if tx.call.ToGovernance? && Submit(w, tx).Ok? && tx.call.gov.On? {
      TxShape(w, tx);
      var call := tx.call.gov;
      var paid := PayDue(w, tx.env, call.id).Ok? && call.act.ExecuteCall?;
      OnShape(w.gov, tx.env, w.tokens, paid, tx.caller, call.id, call.act);
    }
    if tx.call.ToGovernance? && Submit(w, tx).Ok? && tx.call.gov.Configure? {
      ConfigShape(w.gov, tx.caller, tx.call.gov.setting);
    }
  }

  /** Transaction c creates motion i from draft d. */
  ghost predicate Drafts(ws: seq<World>, txs: seq<Tx>, c: nat, i: nat, d: Draft) {
    && c < |txs| && c + 1 < |ws| && txs[c].call == ToGovernance(Create(d)) && Submit(ws[c], txs[c]).Ok?
    && i == |ws[c].gov.motions| && i < |ws[c + 1].gov.motions|
    && Calls.AsDrafted(ws[c + 1].gov.motions[i], d, txs[c].caller, txs[c].env)
  }

  lemma NextDrafts(ws: seq<World>, txs: seq<Tx>, c: nat, i: nat) returns (d: Draft)
    requires Run(ws, txs) && c < |txs| && !Exists(ws, c, i) && Exists(ws, c + 1, i)
    ensures Drafts(ws, txs, c, i, d)
  {
    assert StepAt(ws, txs, c);
    TxShape(ws[c], txs[c]);
    Appears(ws[c], txs[c]);
    d := txs[c].call.gov.draft;
    Calls.CreationIsAsDrafted(ws[c].gov, txs[c].env, ws[c].tokens, txs[c].caller, d);
  }

  /** Every motion of a run from deployment was created by a successful call, as its draft says. */
  lemma {:induction false} BornFromDraft(ws: seq<World>, txs: seq<Tx>, k: nat, i: nat) returns (c: nat, d: Draft)
    requires Run(ws, txs) && Genesis(ws[0]) && k <= |txs| && Exists(ws, k, i)
    ensures c < k && Drafts(ws, txs, c, i, d)
  {
    if Exists(ws, k - 1, i) {
      c, d := BornFromDraft(ws, txs, k - 1, i);
    } else {
      c := k - 1;
      d := NextDrafts(ws, txs, c, i);
    }
  }

  /** And what never changes is the draft's in every later state: the caller as proposer, link, payout and period. */
  lemma StaysAsDrafted(ws: seq<World>, txs: seq<Tx>, c: nat, k: nat, i: nat, d: Draft)
    requires Run(ws, txs) && c < k <= |txs| && Drafts(ws, txs, c, i, d)
    ensures Exists(ws, k, i)
    ensures var m := MotionAt(ws, k, i);
      && m.proposer == txs[c].caller && m.link == d.link && m.action == d.action
      && m.startTime == txs[c].env.now && m.endTime == txs[c].env.now + d.duration
  {
    IdentityIsFixed(ws, txs, c + 1, k, i);
  }

  // ------------------------------------------------------------------ decisions

  ghost predicate SingleQuestion(w: World) {
    forall i :: 0 <= i < |w.gov.motions| ==> w.gov.motions[i].choiceVotes == []
  }

  lemma EventKeepsIdentity(m: Motion, env: Env, e: Event)
    requires Allowed(m, env, e)
    ensures var m' := Effect(m, env, e);
      && m'.choiceVotes == m.choiceVotes && m'.action == m.action && m'.proposer == m.proposer
      && m'.startTime == m.startTime && m'.endTime == m.endTime && m'.link == m.link
      && m'.snapshotLedger == m.snapshotLedger
  {
  }

  lemma ApplyKeepsSingleQuestion(w: World, tx: Tx)
    requires SingleQuestion(w)
    ensures SingleQuestion(Apply(w, tx))
  {
    TxShape(w, tx);
    var w' := Apply(w, tx);
    forall i | 0 <= i < |w'.gov.motions| ensures w'.gov.motions[i].choiceVotes == [] {
      if i < |w.gov.motions| {
        EventKeepsIdentity(w.gov.motions[i], tx.env, Happens(w, tx, i));
      } else {
        Appears(w, tx);
      }
    }
  }

  lemma {:induction false} RunKeepsSingleQuestion(ws: seq<World>, txs: seq<Tx>, k: nat)
    requires Run(ws, txs) && SingleQuestion(ws[0]) && k <= |txs|
    ensures SingleQuestion(ws[k])
  {
    if k > 0 {
      RunKeepsSingleQuestion(ws, txs, k - 1);
      assert StepAt(ws, txs, k - 1);
      ApplyKeepsSingleQuestion(ws[k - 1], txs[k - 1]);
    }
  }

  lemma NextClosed(ws: seq<World>, txs: seq<Tx>, j: nat, i: nat)
    requires Run(ws, txs) && j < |txs| && Exists(ws, j, i) && MotionAt(ws, j, i).state != Active
    ensures Exists(ws, j + 1, i)
    ensures FinalFrom(MotionAt(ws, j, i), MotionAt(ws, j + 1, i))
  {
    Next(ws, txs, j, i);
  }

  ghost predicate FinalFrom(m: Motion, m': Motion) {
    && m' == m.(state := m'.state)
    && (m'.state == m.state || (m.state == Passed && m'.state == Executed))
  }

  lemma FinalComposes(a: Motion, b: Motion, c: Motion)
    requires FinalFrom(a, b) && FinalFrom(b, c)
    ensures FinalFrom(a, c)
  {
  }

  /** Once a motion has left Active nothing about it changes again but Passed to Executed. */
  lemma {:induction false} ClosedIsFinal(ws: seq<World>, txs: seq<Tx>, j: nat, k: nat, i: nat)
    requires Run(ws, txs) && j <= k <= |txs| && Exists(ws, j, i) && MotionAt(ws, j, i).state != Active
    ensures Exists(ws, k, i)
    ensures FinalFrom(MotionAt(ws, j, i), MotionAt(ws, k, i))
    decreases k
  {
    if j < k {
      ClosedIsFinal(ws, txs, j, k - 1, i);
      NextClosed(ws, txs, k - 1, i);
      FinalComposes(MotionAt(ws, j, i), MotionAt(ws, k - 1, i), MotionAt(ws, k, i));
    }
  }

  lemma NextKeepsIdentity(ws: seq<World>, txs: seq<Tx>, j: nat, i: nat)
    requires Run(ws, txs) && j < |txs| && Exists(ws, j, i)
    ensures Exists(ws, j + 1, i)
    ensures SameIdentity(MotionAt(ws, j, i), MotionAt(ws, j + 1, i))
  {
    Next(ws, txs, j, i);
    EventKeepsIdentity(MotionAt(ws, j, i), txs[j].env, EventAt(ws, txs, j, i));
  }

  predicate SameIdentity(m: Motion, m': Motion) {
    && m'.proposer == m.proposer && m'.action == m.action && m'.link == m.link
    && m'.startTime == m.startTime && m'.endTime == m.endTime
  }

  /** Proposer, payout, link and voting period never change after creation. */
  lemma {:induction false} IdentityIsFixed(ws: seq<World>, txs: seq<Tx>, j: nat, k: nat, i: nat)
    requires Run(ws, txs) && j <= k <= |txs| && Exists(ws, j, i)
    ensures Exists(ws, k, i)
    ensures SameIdentity(MotionAt(ws, j, i), MotionAt(ws, k, i))
    decreases k
  {
    if j < k {
      IdentityIsFixed(ws, txs, j, k - 1, i);
      NextKeepsIdentity(ws, txs, k - 1, i);
    }
  }

  // ------------------------------------------------------------------ the state of a motion is its history

  ghost predicate FinalisesAt(ws: seq<World>, txs: seq<Tx>, n: nat, i: nat) {
    n < |txs| && n < |ws| && Reaches(ws[n], txs[n], i) && txs[n].call.gov.act.FinaliseCall?
  }

  ghost predicate CancelsAt(ws: seq<World>, txs: seq<Tx>, n: nat, i: nat) {
    n < |txs| && n < |ws| && Reaches(ws[n], txs[n], i) && txs[n].call.gov.act.CancelCall?
  }

  ghost predicate ExecutesAt(ws: seq<World>, txs: seq<Tx>, n: nat, i: nat) {
    n < |txs| && n < |ws| && Reaches(ws[n], txs[n], i) && txs[n].call.gov.act.ExecuteCall?
  }

  /** A finalise call on motion i succeeded before k. */
  ghost predicate FinalisedBy(ws: seq<World>, txs: seq<Tx>, k: nat, i: nat) {
    exists n :: 0 <= n < k && FinalisesAt(ws, txs, n, i)
  }

  ghost predicate CancelledBy(ws: seq<World>, txs: seq<Tx>, k: nat, i: nat) {
    exists n :: 0 <= n < k && CancelsAt(ws, txs, n, i)
  }

  ghost predicate ExecutedBy(ws: seq<World>, txs: seq<Tx>, k: nat, i: nat) {
    exists n :: 0 <= n < k && ExecutesAt(ws, txs, n, i)
  }

  lemma OneMoreCall(ws: seq<World>, txs: seq<Tx>, k: nat, i: nat)
    ensures FinalisedBy(ws, txs, k + 1, i) <==> FinalisedBy(ws, txs, k, i) || FinalisesAt(ws, txs, k, i)
    ensures CancelledBy(ws, txs, k + 1, i) <==> CancelledBy(ws, txs, k, i) || CancelsAt(ws, txs, k, i)
    ensures ExecutedBy(ws, txs, k + 1, i) <==> ExecutedBy(ws, txs, k, i) || ExecutesAt(ws, txs, k, i)
  {
  }

  /** How one transaction moves the state: a finalise call lets the ballots decide, a cancel call cancels, an execution
      executes, and nothing else moves it. */
  lemma NextState(ws: seq<World>, txs: seq<Tx>, j: nat, i: nat)
    requires Run(ws, txs) && j < |txs| && Exists(ws, j, i)
    ensures Exists(ws, j + 1, i)
    ensures var (m, m') := (MotionAt(ws, j, i), MotionAt(ws, j + 1, i));
      if FinalisesAt(ws, txs, j, i) then m.state == Active && Calls.DecidedAs(m, m')
      else if CancelsAt(ws, txs, j, i) then m.state == Active && m'.state == Cancelled
      else if ExecutesAt(ws, txs, j, i) then m.state == Passed && m'.state == Executed
      else m'.state == m.state
  {
    Next(ws, txs, j, i);
    EventsAreCalls(ws[j], txs[j], i);
    Calls.DecideDecides(MotionAt(ws, j, i));
  }

  /** The state of motion i after k transactions follows from which calls on it have succeeded, and what its ballots
      decide. */
  ghost predicate StateTellsHistory(ws: seq<World>, txs: seq<Tx>, k: nat, i: nat) {
    if Exists(ws, k, i) then
      var m := MotionAt(ws, k, i);
      && (m.state == Active <==> !FinalisedBy(ws, txs, k, i) && !CancelledBy(ws, txs, k, i))
      && (m.state == Cancelled <==> CancelledBy(ws, txs, k, i))
      && (m.state == Rejected <==> FinalisedBy(ws, txs, k, i) && !Calls.Carries(m))
      && (m.state in {Passed, Executed} <==> FinalisedBy(ws, txs, k, i) && Calls.Carries(m))
      && (m.state == Executed <==> ExecutedBy(ws, txs, k, i))
    else !FinalisedBy(ws, txs, k, i) && !CancelledBy(ws, txs, k, i) && !ExecutedBy(ws, txs, k, i)
  }

  lemma UnbornIsUntouched(ws: seq<World>, txs: seq<Tx>, k: nat, i: nat)
    requires Run(ws, txs) && k < |txs| && !Exists(ws, k, i)
    ensures !Reaches(ws[k], txs[k], i)
  {
    NothingHappensBefore(ws[k], txs[k], i);
    EventsAreCalls(ws[k], txs[k], i);
  }

  /** What a closed motion's ballots decide does not change. */
  lemma ClosedKeepsVerdict(ws: seq<World>, txs: seq<Tx>, k: nat, i: nat)
    requires Run(ws, txs) && k < |txs| && Exists(ws, k, i) && MotionAt(ws, k, i).state != Active
    ensures Exists(ws, k + 1, i)
    ensures Calls.Carries(MotionAt(ws, k + 1, i)) == Calls.Carries(MotionAt(ws, k, i))
  {
    NextClosed(ws, txs, k, i);
  }

  lemma NextHistory(ws: seq<World>, txs: seq<Tx>, k: nat, i: nat)
    requires Run(ws, txs) && k < |txs| && StateTellsHistory(ws, txs, k, i)
    ensures StateTellsHistory(ws, txs, k + 1, i)
  {
    OneMoreCall(ws, txs, k, i);
    if Exists(ws, k, i) {
      NextState(ws, txs, k, i);
      if MotionAt(ws, k, i).state != Active { ClosedKeepsVerdict(ws, txs, k, i); }
    } else {
      UnbornIsUntouched(ws, txs, k, i);
      if Exists(ws, k + 1, i) {
        var d := NextDrafts(ws, txs, k, i);
      }
    }
  }

  lemma {:induction false} StateIsHistory(ws: seq<World>, txs: seq<Tx>, k: nat, i: nat)
    requires Run(ws, txs) && Genesis(ws[0]) && k <= |txs|
    ensures StateTellsHistory(ws, txs, k, i)
  {
    if k > 0 {
      StateIsHistory(ws, txs, k - 1, i);
      NextHistory(ws, txs, k - 1, i);
    }
  }

  /** Decisions follow the ballots, both ways: after any run from deployment a motion is Passed or Executed if and only
      if it has been finalised and its live records reach the quorum with more yes than no, Rejected if and only if it
      has been finalised and they do not, Cancelled if and only if it has been cancelled, Executed if and only if it has
      been executed, and Active otherwise. */
  lemma DecisionsAreSound(ws: seq<World>, txs: seq<Tx>, k: nat, i: nat)
    requires Run(ws, txs) && Genesis(ws[0]) && k <= |txs| && Exists(ws, k, i)
    ensures var m := MotionAt(ws, k, i);
      var carried := m.Weight(Yes) + m.Weight(No) + m.Weight(Abstain) >= m.quorum && m.Weight(Yes) > m.Weight(No);
      && (m.state in {Passed, Executed} <==> FinalisedBy(ws, txs, k, i) && carried)
      && (m.state == Rejected <==> FinalisedBy(ws, txs, k, i) && !carried)
      && (m.state == Cancelled <==> CancelledBy(ws, txs, k, i))
      && (m.state == Executed <==> ExecutedBy(ws, txs, k, i))
      && (m.state == Active <==> !FinalisedBy(ws, txs, k, i) && !CancelledBy(ws, txs, k, i))
  {
    StateIsHistory(ws, txs, k, i);
    RunKeepsSingleQuestion(ws, txs, k);
  }

  /** A motion leaves Active by a finalise call, after its end and as the ballots decide, or by a cancel call of the
      admin; it is Cancelled in the second case only. */
  lemma LeavesActiveBy(ws: seq<World>, txs: seq<Tx>, j: nat, i: nat)
    requires Run(ws, txs) && j < |txs| && Exists(ws, j, i) && Exists(ws, j + 1, i)
    requires MotionAt(ws, j, i).state == Active && MotionAt(ws, j + 1, i).state != Active
    ensures var (m, m', call) := (MotionAt(ws, j, i), MotionAt(ws, j + 1, i), txs[j].call);
      && call.ToGovernance? && call.gov.On? && call.gov.id == i
      && (m'.state == Cancelled <==> call.gov.act.CancelCall?)
      && (m'.state in {Passed, Rejected} <==> call.gov.act.FinaliseCall?)
      && (call.gov.act.FinaliseCall? ==> txs[j].env.now > m.endTime && Calls.DecidedAs(m, m'))
      && (call.gov.act.CancelCall? ==>
            && ws[j].gov.config.admin == Some(txs[j].caller)
            && m' == m.(state := Cancelled, cancellationReason := call.gov.act.reason))
  {
    NextState(ws, txs, j, i);
    Next(ws, txs, j, i);
    EventsAreCalls(ws[j], txs[j], i);
    var act := txs[j].call.gov.act;
    if act.CancelCall? {
      Calls.CancelIsTheAdmins(ws[j].gov, txs[j].env, ws[j].tokens, txs[j].caller, txs[j].call.gov.id, act.reason);
    }
  }

  // ------------------------------------------------------------------ lifecycle

  function Rank(s: ProposalState): nat {
    match s
    case Active => 2
    case Passed => 1
    case _ => 0
  }

  ghost function StateChanges(ws: seq<World>, txs: seq<Tx>, j: nat, k: nat, i: nat): nat
    requires Run(ws, txs) && j <= k <= |txs| && Exists(ws, j, i)
    decreases k
  {
    if j == k then 0
    else
      Stays(ws, txs, j, k - 1, i);
      Stays(ws, txs, j, k, i);
      StateChanges(ws, txs, j, k - 1, i) +
      if MotionAt(ws, k - 1, i).state != MotionAt(ws, k, i).state then 1 else 0
  }

  predicate Finalised(s: ProposalState, s': ProposalState) {
    s == Active && s' in {Passed, Rejected}
  }

  ghost function Finalisations(ws: seq<World>, txs: seq<Tx>, j: nat, k: nat, i: nat): nat
    requires Run(ws, txs) && j <= k <= |txs| && Exists(ws, j, i)
    decreases k
  {
    if j == k then 0
    else
      Stays(ws, txs, j, k - 1, i);
      Stays(ws, txs, j, k, i);
      Finalisations(ws, txs, j, k - 1, i) +
      if Finalised(MotionAt(ws, k - 1, i).state, MotionAt(ws, k, i).state) then 1 else 0
  }

  lemma NextDescends(ws: seq<World>, txs: seq<Tx>, j: nat, i: nat)
    requires Run(ws, txs) && j < |txs| && Exists(ws, j, i)
    ensures Exists(ws, j + 1, i)
    ensures var (s, s') := (MotionAt(ws, j, i).state, MotionAt(ws, j + 1, i).state);
      if s' == s then Rank(s') == Rank(s) else Rank(s') < Rank(s)
  {
    Next(ws, txs, j, i);
  }

  /** The lifecycle measure: states only descend Active > Passed > {Executed, Rejected, Cancelled}, so a
      motion changes state at most twice. */
  lemma {:induction false} StatesDescend(ws: seq<World>, txs: seq<Tx>, j: nat, k: nat, i: nat)
    requires Run(ws, txs) && j <= k <= |txs| && Exists(ws, j, i)
    ensures Exists(ws, k, i)
    ensures StateChanges(ws, txs, j, k, i) + Rank(MotionAt(ws, k, i).state) <= Rank(MotionAt(ws, j, i).state) <= 2
    decreases k
  {
    if j < k {
      StatesDescend(ws, txs, j, k - 1, i);
      NextDescends(ws, txs, k - 1, i);
    }
  }

  /** A motion is finalised at most once, and not at all when it is still Active or was not to begin with. */
  lemma {:induction false} FinalisedAtMostOnce(ws: seq<World>, txs: seq<Tx>, j: nat, k: nat, i: nat)
    requires Run(ws, txs) && j <= k <= |txs| && Exists(ws, j, i)
    ensures Exists(ws, k, i)
    ensures Finalisations(ws, txs, j, k, i) + (if MotionAt(ws, k, i).state == Active then 1 else 0)
         <= (if MotionAt(ws, j, i).state == Active then 1 else 0)
    decreases k
  {
    if j < k {
      FinalisedAtMostOnce(ws, txs, j, k - 1, i);
      NextDescends(ws, txs, k - 1, i);
    }
  }

  /** A motion is finalised only by a finalise call strictly after its end time. */
  lemma FinalisedOnlyAfterEnd(ws: seq<World>, txs: seq<Tx>, j: nat, i: nat)
    requires Run(ws, txs) && j < |txs| && Exists(ws, j, i) && Exists(ws, j + 1, i)
    requires Finalised(MotionAt(ws, j, i).state, MotionAt(ws, j + 1, i).state)
    ensures txs[j].env.now > MotionAt(ws, j, i).endTime
    ensures var call := txs[j].call;
      call.ToGovernance? && call.gov.On? && call.gov.id == i && call.gov.act.FinaliseCall?
  {
    Next(ws, txs, j, i);
  }

  /** Being Active now means having been Active at every earlier point of the motion's life. */
  lemma ActiveSince(ws: seq<World>, txs: seq<Tx>, j: nat, k: nat, i: nat)
    requires Run(ws, txs) && j <= k <= |txs| && Exists(ws, j, i) && Exists(ws, k, i)
    requires MotionAt(ws, k, i).state == Active
    ensures MotionAt(ws, j, i).state == Active
  {
    StatesDescend(ws, txs, j, k, i);
  }

  /** An expired active motion can always be finalised, and nothing else can: the exact condition. */
  lemma FinaliseEnabled(w: World, env: Env, caller: Address, id: u64)
    ensures Submit(w, Tx(env, caller, ToGovernance(On(id, FinaliseCall)))).Ok? <==>
      && caller.Other?
      && w.gov.config.ready && !w.gov.config.paused
      && id < |w.gov.motions|
      && w.gov.motions[id].state == Active
      && env.now > w.gov.motions[id].endTime
      && w.gov.motions[id].Total() <= I128_MAX
  {
  }

  /** Motion i is cancelled by one of the transactions j..k-1. */
  ghost predicate CancelledBetween(ws: seq<World>, txs: seq<Tx>, j: nat, k: nat, i: nat) {
    exists n :: j <= n < k && CancelsAt(ws, txs, n, i)
  }

  lemma NextOverfull(ws: seq<World>, txs: seq<Tx>, j: nat, i: nat)
    requires Run(ws, txs) && WorldOk(ws[0]) && j < |txs| && Exists(ws, j, i)
    requires var m := MotionAt(ws, j, i); m.state == Active && m.Total() > I128_MAX && txs[j].env.now > m.endTime
    ensures Exists(ws, j + 1, i)
    ensures var (m, m') := (MotionAt(ws, j, i), MotionAt(ws, j + 1, i));
      if CancelsAt(ws, txs, j, i) then m'.state == Cancelled else m' == m
  {
    RunKeepsWorldOk(ws, txs, j);
    assert MotionOk(MotionAt(ws, j, i));
    EventsAreCalls(ws[j], txs[j], i);
    Next(ws, txs, j, i);
  }

  /** An expired Active motion whose tallies add up to more than i128 holds cannot be finalised: whatever happens, it
      stays as it is until it is cancelled. */
  lemma {:induction false} OverfullLeavesOnlyByCancel(ws: seq<World>, txs: seq<Tx>, j: nat, k: nat, i: nat)
    requires Run(ws, txs) && WorldOk(ws[0]) && j <= k <= |txs| && Exists(ws, j, i)
    requires MotionAt(ws, j, i).state == Active && MotionAt(ws, j, i).Total() > I128_MAX
    requires forall n :: j <= n < |txs| ==> txs[n].env.now > MotionAt(ws, j, i).endTime
    ensures Exists(ws, k, i)
    ensures if CancelledBetween(ws, txs, j, k, i) then MotionAt(ws, k, i).state == Cancelled
      else MotionAt(ws, k, i) == MotionAt(ws, j, i)
    decreases k
  {
    if j < k {
      OverfullLeavesOnlyByCancel(ws, txs, j, k - 1, i);
      if CancelledBetween(ws, txs, j, k - 1, i) {
        NextClosed(ws, txs, k - 1, i);
      } else {
        NextOverfull(ws, txs, k - 1, i);
      }
    }
  }

  /** Until then it also keeps the voting token from being replaced. */
  lemma OverfullBlocksTokenUpdate(ws: seq<World>, txs: seq<Tx>, j: nat, k: nat, i: nat, token: Address)
    requires Run(ws, txs) && WorldOk(ws[0]) && j <= k < |txs| && Exists(ws, j, i)
    requires MotionAt(ws, j, i).state == Active && MotionAt(ws, j, i).Total() > I128_MAX
    requires forall n :: j <= n < |txs| ==> txs[n].env.now > MotionAt(ws, j, i).endTime
    requires !CancelledBetween(ws, txs, j, k, i) && txs[k].call == ToGovernance(Configure(UpdateVotingTokenCall(token)))
    ensures !Submit(ws[k], txs[k]).Ok?
  {
    OverfullLeavesOnlyByCancel(ws, txs, j, k, i);
    CountPositive(ws[k].gov.motions);
  }

  predicate Monotone(txs: seq<Tx>) {
    forall a, b :: 0 <= a <= b < |txs| ==> txs[a].env.now <= txs[b].env.now
  }

  lemma NextKeepsQuorum(ws: seq<World>, txs: seq<Tx>, j: nat, i: nat)
    requires Run(ws, txs) && j < |txs| && Exists(ws, j, i)
    requires !Calls.InFirstTenth(MotionAt(ws, j, i), txs[j].env.now)
    ensures Exists(ws, j + 1, i)
    ensures MotionAt(ws, j + 1, i).quorum == MotionAt(ws, j, i).quorum
  {
    Next(ws, txs, j, i);
    Calls.DeadlineIsTenth(MotionAt(ws, j, i), txs[j].env.now);
    EventKeepsIdentity(MotionAt(ws, j, i), txs[j].env, EventAt(ws, txs, j, i));
  }

  /** The quorum is fixed once the first tenth of the voting period is over. */
  lemma {:induction false} QuorumIsFixed(ws: seq<World>, txs: seq<Tx>, j: nat, k: nat, i: nat)
    requires Run(ws, txs) && j < k <= |txs| && Exists(ws, j, i) && Monotone(txs)
    requires var m := MotionAt(ws, j, i);
      10 * (txs[j].env.now - m.startTime) > if m.endTime > m.startTime then m.endTime - m.startTime else 0
    ensures Exists(ws, k, i)
    ensures MotionAt(ws, k, i).quorum == MotionAt(ws, j, i).quorum
    decreases k
  {
    if j + 1 < k {
      QuorumIsFixed(ws, txs, j, k - 1, i);
    }
    IdentityIsFixed(ws, txs, j, k - 1, i);
    NextKeepsQuorum(ws, txs, k - 1, i);
  }

  // ------------------------------------------------------------------ text binding

  lemma EventKeepsVotedText(m: Motion, env: Env, e: Event)
    requires MotionOk(m) && Allowed(m, env, e) && m.ballots != map[]
    ensures Effect(m, env, e).title == m.title && Effect(m, env, e).description == m.description
  {
    TotalZeroIffNoBallot(m);
  }

  lemma NextKeepsVotedText(ws: seq<World>, txs: seq<Tx>, j: nat, i: nat)
    requires Run(ws, txs) && WorldOk(ws[0]) && j < |txs| && Exists(ws, j, i) && MotionAt(ws, j, i).ballots != map[]
    ensures Exists(ws, j + 1, i)
    ensures SameText(MotionAt(ws, j, i), MotionAt(ws, j + 1, i))
  {
    RunKeepsWorldOk(ws, txs, j);
    Next(ws, txs, j, i);
    EventKeepsVotedText(MotionAt(ws, j, i), txs[j].env, EventAt(ws, txs, j, i));
  }

  /** The voter has a live record on motion i after n transactions. */
  ghost predicate OnRecord(ws: seq<World>, n: nat, i: nat, voter: Address)
  {
    Exists(ws, n, i) && voter in MotionAt(ws, n, i).ballots
  }

  predicate SameText(m: Motion, m': Motion) {
    m'.title == m.title && m'.description == m.description
  }

  /** Text binding: as long as a vote stays on record, the motion keeps the title and description it
      had when the vote was cast. */
  lemma {:induction false} VotesBindText(ws: seq<World>, txs: seq<Tx>, j: nat, k: nat, i: nat, voter: Address)
    requires Run(ws, txs) && WorldOk(ws[0]) && j <= k <= |txs| && Exists(ws, j, i)
    requires OnRecord(ws, k, i, voter)
    requires forall n :: j <= n <= k ==> OnRecord(ws, n, i, voter)
    ensures SameText(MotionAt(ws, j, i), MotionAt(ws, k, i))
    decreases k
  {
    if j < k {
      VotesBindText(ws, txs, j, k - 1, i, voter);
      assert OnRecord(ws, k - 1, i, voter);
      NextKeepsVotedText(ws, txs, k - 1, i);
    }
  }

  // ------------------------------------------------------------------ one token per vote

  lemma ConfigKeepsTokenWhileActive(g: Gov, caller: Address, setting: ConfigCall, i: nat)
    requires GovOk(g) && i < |g.motions| && g.motions[i].state == Active && StepConfig(g, caller, setting).Ok?
    ensures StepConfig(g, caller, setting).value.config.votingToken == g.config.votingToken
  {
    CountPositive(g.motions);
    assert g.config.ready && ActiveCount(g.motions) > 0;
  }

  lemma ApplyKeepsTokenWhileActive(w: World, tx: Tx, i: nat)
    requires WorldOk(w) && i < |w.gov.motions| && w.gov.motions[i].state == Active
    ensures Apply(w, tx).gov.config.votingToken == w.gov.config.votingToken
  {
    if tx.call.ToGovernance? && Submit(w, tx).Ok? {
      var call := tx.call.gov;
      if call.Configure? {
        ConfigKeepsTokenWhileActive(w.gov, tx.caller, call.setting, i);
      } else {
        var paid := call.On? && call.act.ExecuteCall? && PayDue(w, tx.env, call.id).Ok?;
        StepShape(w.gov, tx.env, w.tokens, paid, tx.caller, call);
      }
    }
  }

  /** One token per vote: from its creation to the end of its active life a motion is voted on with
      the same token. */
  lemma {:induction false} VotingTokenIsFixed(ws: seq<World>, txs: seq<Tx>, j: nat, k: nat, i: nat)
    requires Run(ws, txs) && WorldOk(ws[0]) && j <= k <= |txs| && Exists(ws, j, i) && Exists(ws, k, i)
    requires k == j || (Exists(ws, k - 1, i) && MotionAt(ws, k - 1, i).state == Active)
    ensures ws[k].gov.config.votingToken == ws[j].gov.config.votingToken
    decreases k
  {
    if j < k {
      if j < k - 1 {
        Stays(ws, txs, j, k - 2, i);
        ActiveSince(ws, txs, k - 2, k - 1, i);
      }
      VotingTokenIsFixed(ws, txs, j, k - 1, i);
      RunKeepsWorldOk(ws, txs, k - 1);
      assert StepAt(ws, txs, k - 1);
      ApplyKeepsTokenWhileActive(ws[k - 1], txs[k - 1], i);
    }
  }

  // ------------------------------------------------------------------ voter_count

  ghost function Retractions(ws: seq<World>, txs: seq<Tx>, k: nat, i: nat): nat
    requires |ws| == |txs| + 1 && k <= |txs|
  {
    if k == 0 then 0
    else Retractions(ws, txs, k - 1, i) + if EventAt(ws, txs, k - 1, i).Retracted? then 1 else 0
  }

  lemma NothingHappensBefore(w: World, tx: Tx, i: nat)
    requires i >= |w.gov.motions|
    ensures Happens(w, tx, i) == Untouched
  {
    if tx.call.ToGovernance? && Submit(w, tx).Ok? && tx.call.gov.On? {
      var call := tx.call.gov;
      var paid := call.act.ExecuteCall? && PayDue(w, tx.env, call.id).Ok?;
      OnShape(w.gov, tx.env, w.tokens, paid, tx.caller, call.id, call.act);
    }
  }

  /** voter_count is the number of live records plus the number of retractions so far: it counts casts,
      not current voters. */
  lemma {:induction false} VoterCountCountsCasts(ws: seq<World>, txs: seq<Tx>, k: nat, i: nat)
    requires Run(ws, txs) && Genesis(ws[0]) && k <= |txs|
    ensures if Exists(ws, k, i)
      then MotionAt(ws, k, i).voterCount == |MotionAt(ws, k, i).ballots| + Retractions(ws, txs, k, i)
      else Retractions(ws, txs, k, i) == 0
  {
    if k > 0 {
      VoterCountCountsCasts(ws, txs, k - 1, i);
      var (v, tx) := (ws[k - 1], txs[k - 1]);
      assert StepAt(ws, txs, k - 1);
      if Exists(ws, k - 1, i) {
        Next(ws, txs, k - 1, i);
        EventMovesVoterCount(MotionAt(ws, k - 1, i), tx.env, EventAt(ws, txs, k - 1, i));
      } else {
        NothingHappensBefore(v, tx, i);
        TxShape(v, tx);
        if Exists(ws, k, i) { Appears(v, tx); }
      }
    }
  }

  // ------------------------------------------------------------------ what undoes what

  /** Retracting straight after casting gives back every tally and record; only voter_count remembers. */
  lemma RetractUndoesCast(m: Motion, env: Env, voter: Address, r: VoteRecord)
    requires Allowed(m, env, Voted(voter, r))
    ensures var cast := Effect(m, env, Voted(voter, r));
      && Allowed(cast, env, Retracted(voter))
      && Effect(cast, env, Retracted(voter)) == m.(voterCount := m.voterCount + 1)
  {
    var cast := Effect(m, env, Voted(voter, r));
    assert cast.ballots - {voter} == m.ballots;
  }

  /** Changing a vote leaves what casting the new vote in the first place would have left. */
  lemma ChangeIsCastOtherwise(m: Motion, env: Env, voter: Address, first: VoteRecord, second: Vote)
    requires Allowed(m, env, Voted(voter, first)) && first.vote != second
    requires Allowed(m, env, Voted(voter, VoteRecord(second, first.weight)))
    ensures var cast := Effect(m, env, Voted(voter, first));
      && Allowed(cast, env, Changed(voter, second))
      && Effect(cast, env, Changed(voter, second)) == Effect(m, env, Voted(voter, VoteRecord(second, first.weight)))
  {
    PutBallot(m, voter, first, second);
    var other := VoteRecord(second, first.weight);
    assert m.ballots[voter := first][voter := other] == m.ballots[voter := other];
  }
}
