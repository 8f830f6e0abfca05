/** Quorum updates. The API documentation allows them only before any vote, and drafting respects a floor in basis
    points of the supply; the code asks for neither. This module says exactly when a motion with votes can have
    its quorum changed, when the floor can be undercut, and what a motion's quorum is along a run. */
module QuorumUpdates {
  import opened Host
  import opened SystemSpec
  import opened SystemLaws
  import opened GovernanceLaws
  import opened GovernanceSpec
  import opened Lifecycle
  import Calls = GovernanceCalls
  import SupplyBound
  import T = TokenSpec

  function UpdateTx(env: Env, caller: Address, id: u64, quorum: i128): Tx {
    Tx(env, caller, ToGovernance(On(id, UpdateQuorumCall(quorum))))
  }

  /** The supply of the voting token, zero if there is none. */
  ghost function VotingSupply(w: World): int {
    if w.gov.config.votingToken.Some? && w.gov.config.votingToken.value in w.tokens
    then w.tokens[w.gov.config.votingToken.value].Supply() else 0
  }

  /** The least quorum a draft may have. */
  ghost function Floor(w: World): int {
    VotingSupply(w) * w.gov.config.minQuorumBps / 10_000
  }

  /** What update_quorum asks apart from the new value: nothing about votes. */
  ghost predicate Updatable(w: World, env: Env, caller: Address, id: nat) {
    && caller.Other? && w.gov.config.admin == Some(caller)
    && w.gov.config.votingToken.Some? && w.gov.config.votingToken.value in w.tokens
    && id < |w.gov.motions| && w.gov.motions[id].state == Active
    && var m := w.gov.motions[id];
       10 * (env.now - m.startTime) <= if m.endTime > m.startTime then m.endTime - m.startTime else 0
  }

  /** Exactly when an update succeeds, and all it does. */
  lemma UpdateSucceedsIff(w: World, env: Env, caller: Address, id: u64, quorum: i128)
    ensures Submit(w, UpdateTx(env, caller, id, quorum)).Ok? <==>
      Updatable(w, env, caller, id) && 0 < quorum <= VotingSupply(w)
    ensures Submit(w, UpdateTx(env, caller, id, quorum)).Ok? ==>
      Submit(w, UpdateTx(env, caller, id, quorum)).value ==
        w.(gov := w.gov.Put(id, w.gov.motions[id].(quorum := quorum)))
  {
    Calls.UpdateSetsQuorum(w.gov, env, w.tokens, caller, id, quorum);
    SubmitToGovernance(w, env, caller, On(id, UpdateQuorumCall(quorum)));
  }

  /** Some update of motion id to a value below the bound succeeds. */
  ghost predicate SomeUpdate(w: World, env: Env, caller: Address, id: u64, below: int) {
    exists quorum: i128 :: quorum < below && Submit(w, UpdateTx(env, caller, id, quorum)).Ok?
  }

  /** A motion can have its quorum changed if and only if the caller is the admin, the motion is Active and in the first
      tenth of its period, and the voting token has a supply. Nothing is asked about votes, so the documented rule, no
      update once votes are on record, is broken exactly where there are votes and this condition holds. */
  lemma UpdatableIff(w: World, env: Env, caller: Address, id: u64)
    ensures SomeUpdate(w, env, caller, id, I128_MAX + 1) <==> Updatable(w, env, caller, id) && VotingSupply(w) > 0
  {
    if Updatable(w, env, caller, id) && VotingSupply(w) > 0 {
      UpdateSucceedsIff(w, env, caller, id, 1);
    }
    forall quorum: i128 | Submit(w, UpdateTx(env, caller, id, quorum)).Ok?
      ensures Updatable(w, env, caller, id) && VotingSupply(w) > 0
    {
      UpdateSucceedsIff(w, env, caller, id, quorum);
    }
  }

  /** The floor can be undercut if and only if an update is possible at all and the floor exceeds one. */
  lemma FloorCanBeUndercutIff(w: World, env: Env, caller: Address, id: u64)
    ensures SomeUpdate(w, env, caller, id, Floor(w)) <==> Updatable(w, env, caller, id) && Floor(w) > 1
  {
    if Updatable(w, env, caller, id) && Floor(w) > 1 {
      SupplyBehindFloor(VotingSupply(w), w.gov.config.minQuorumBps);
      UpdateSucceedsIff(w, env, caller, id, 1);
    }
    forall quorum: i128 | quorum < Floor(w) && Submit(w, UpdateTx(env, caller, id, quorum)).Ok?
      ensures Updatable(w, env, caller, id) && Floor(w) > 1
    {
      UpdateSucceedsIff(w, env, caller, id, quorum);
    }
  }

  lemma SupplyBehindFloor(supply: int, bps: nat)
    requires supply * bps / 10_000 > 1
    ensures supply > 0
  {
    assert supply <= 0 ==> supply * bps <= 0;
  }

  // ------------------------------------------------------------------ along a run

  /** The quorum set by the latest successful update of motion i between j and k. */
  ghost function LatestUpdate(ws: seq<World>, txs: seq<Tx>, j: nat, k: nat, i: nat): Option<i128>
    requires |ws| == |txs| + 1 && j <= k <= |txs|
    decreases k
  {
    if j == k then None
    else if EventAt(ws, txs, k - 1, i).Requorumed? then Some(EventAt(ws, txs, k - 1, i).quorum)
    else LatestUpdate(ws, txs, j, k - 1, i)
  }

  lemma NextQuorum(ws: seq<World>, txs: seq<Tx>, j: nat, i: nat)
    requires Run(ws, txs) && j < |txs| && Exists(ws, j, i)
    ensures Exists(ws, j + 1, i)
    ensures var e := EventAt(ws, txs, j, i);
      MotionAt(ws, j + 1, i).quorum == if e.Requorumed? then e.quorum else MotionAt(ws, j, i).quorum
  {
    Next(ws, txs, j, i);
  }

  lemma {:induction false} QuorumSince(ws: seq<World>, txs: seq<Tx>, j: nat, k: nat, i: nat)
    requires Run(ws, txs) && j <= k <= |txs| && Exists(ws, j, i)
    ensures Exists(ws, k, i)
    ensures var u := LatestUpdate(ws, txs, j, k, i);
      MotionAt(ws, k, i).quorum == if u.Some? then u.value else MotionAt(ws, j, i).quorum
    decreases k
  {
    if j < k {
      QuorumSince(ws, txs, j, k - 1, i);
      NextQuorum(ws, txs, k - 1, i);
    }
  }

  lemma RequorumedByUpdate(w: World, tx: Tx, i: nat)
    requires Happens(w, tx, i).Requorumed?
    ensures i <= U64_MAX && tx == UpdateTx(tx.env, tx.caller, i, Happens(w, tx, i).quorum) && Submit(w, tx).Ok?
  {
  }

  /** A call of update_quorum for motion i by the admin of that world, within its window and its supply. */
  ghost predicate IsUpdate(w: World, tx: Tx, i: nat, quorum: i128) {
    && i <= U64_MAX && tx == UpdateTx(tx.env, tx.caller, i, quorum)
    && Updatable(w, tx.env, tx.caller, i) && 0 < quorum <= VotingSupply(w)
  }

  lemma RequorumIsUpdate(ws: seq<World>, txs: seq<Tx>, n: nat, i: nat)
    requires Run(ws, txs) && n < |txs| && EventAt(ws, txs, n, i).Requorumed?
    ensures IsUpdate(ws[n], txs[n], i, EventAt(ws, txs, n, i).quorum)
  {
    RequorumedByUpdate(ws[n], txs[n], i);
    UpdateSucceedsIff(ws[n], txs[n].env, txs[n].caller, i, EventAt(ws, txs, n, i).quorum);
  }

  /** The latest update is a successful call of update_quorum by the admin of its time, within the window and
      the supply of its time. */
  lemma {:induction false} LatestUpdateIsCall(ws: seq<World>, txs: seq<Tx>, j: nat, k: nat, i: nat) returns (n: nat)
    requires Run(ws, txs) && j <= k <= |txs| && LatestUpdate(ws, txs, j, k, i).Some?
    ensures j <= n < k && IsUpdate(ws[n], txs[n], i, LatestUpdate(ws, txs, j, k, i).value)
    decreases k
  {
    if EventAt(ws, txs, k - 1, i).Requorumed? {
      n := k - 1;
      RequorumIsUpdate(ws, txs, n, i);
    } else {
      n := LatestUpdateIsCall(ws, txs, j, k - 1, i);
    }
  }

  lemma DraftMeetsFloor(g: Gov, env: Env, tokens: map<Address, T.Token>, proposer: Address, d: Draft)
    requires CreateProposal(g, env, tokens, proposer, d).Ok?
    ensures VotingToken(g, tokens).Some?
    ensures var supply := VotingToken(g, tokens).value.Supply();
      0 < d.quorum <= supply && d.quorum >= supply * g.config.minQuorumBps / 10_000
  {
    DraftStands(g, env, tokens, proposer, d);
  }

  lemma DraftStands(g: Gov, env: Env, tokens: map<Address, T.Token>, proposer: Address, d: Draft)
    requires CreateProposal(g, env, tokens, proposer, d).Ok?
    ensures VotingToken(g, tokens).Some? && 0 < d.quorum
    ensures Standing(g, env, VotingToken(g, tokens).value, proposer, d.quorum) == Pass
  {
  }

  /** A motion's quorum in any state of a run: the drafted one, which met the floor of its creation, or the argument of
      the latest update since. It lies below that floor if and only if that update went below it. */
  lemma QuorumAlongRun(ws: seq<World>, txs: seq<Tx>, c: nat, k: nat, i: nat) returns (d: Draft)
    requires Run(ws, txs) && c < k <= |txs| && i == |ws[c].gov.motions| && Exists(ws, c + 1, i)
    ensures txs[c].call == ToGovernance(Create(d)) && Floor(ws[c]) <= d.quorum <= VotingSupply(ws[c])
    ensures Exists(ws, k, i)
    ensures var u := LatestUpdate(ws, txs, c + 1, k, i);
      && MotionAt(ws, k, i).quorum == (if u.Some? then u.value else d.quorum)
      && (MotionAt(ws, k, i).quorum < Floor(ws[c]) <==> u.Some? && u.value < Floor(ws[c]))
  {
    d := Drafted(ws, txs, c);
    QuorumSince(ws, txs, c + 1, k, i);
  }

  lemma Drafted(ws: seq<World>, txs: seq<Tx>, c: nat) returns (d: Draft)
    requires Run(ws, txs) && c < |txs| && Exists(ws, c + 1, |ws[c].gov.motions|)
    ensures txs[c].call == ToGovernance(Create(d)) && Floor(ws[c]) <= d.quorum <= VotingSupply(ws[c])
    ensures MotionAt(ws, c + 1, |ws[c].gov.motions|).quorum == d.quorum
  {
    assert StepAt(ws, txs, c);
    Appears(ws[c], txs[c]);
    d := txs[c].call.gov.draft;
    DraftMeetsFloor(ws[c].gov, txs[c].env, ws[c].tokens, txs[c].caller, d);
  }

  // ------------------------------------------------------------------ both failures from deployment

  /** A run from deployment in which a motion with Alice's vote on record has its quorum lowered from five to one,
      below the floor of five that held when it was drafted and holds still. */
  lemma VotedQuorumLowered() returns (w: World)
    ensures Genesis(SupplyBound.WORLD_0)
    ensures var ready := Apply(Apply(SupplyBound.WORLD_0, SupplyBound.TX_1), SupplyBound.TX_2);
      var drafted := Apply(ready, SupplyBound.TX_3);
      var voted := Apply(drafted, SupplyBound.CastTx(SupplyBound.START, SupplyBound.ALICE, 0, Yes));
      w == Apply(voted, UpdateTx(SupplyBound.START, SupplyBound.ALICE, 0, 1)) && Floor(voted) == Floor(w) == 5
    ensures |w.gov.motions| > 0 && w.gov.motions[0].quorum == 1 && SupplyBound.ALICE in w.gov.motions[0].ballots
  {
    SupplyBound.TenTokens();
    SupplyBound.OneMotion();
    SupplyBound.TenVotes();
    UpdateSucceedsIff(SupplyBound.WORLD_4, SupplyBound.START, SupplyBound.ALICE, 0, 1);
    w := Apply(SupplyBound.WORLD_4, UpdateTx(SupplyBound.START, SupplyBound.ALICE, 0, 1));
  }
}
