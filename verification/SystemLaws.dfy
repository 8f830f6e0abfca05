/** Invariants of every run, and the one-step facts the run theorems are built on. */
module SystemLaws {
  import opened Host
  import opened SystemSpec
  import opened GovernanceLaws
  import G = GovernanceSpec
  import T = TokenSpec
  import MapSum

  ghost predicate TokensOk(w: World) {
    forall a :: a in w.tokens ==> a.Other? && T.Wf(w.tokens[a])
  }

  ghost predicate WorldOk(w: World) {
    GovOk(w.gov) && TokensOk(w)
  }

  lemma GenesisOk(w: World)
    requires Genesis(w)
    ensures WorldOk(w) && NonNegative(w)
  {
  }

  /** A disbursement is one transfer out of the treasury on the named token. */
  lemma DisburseShape(w: World, env: Env, invoker: Address, action: G.TreasuryAction)
    requires TokensOk(w) && Disburse(w, env, invoker, action).Ok?
    ensures var w' := Disburse(w, env, invoker, action).value;
      && TokensOk(w')
      && (NonNegative(w) ==> NonNegative(w'))
      && w'.gov == w.gov && w'.payouts == w.payouts
      && w'.vault == w.vault.(events := w.vault.events + [(action.recipient, action.amount)])
      && w'.tokens.Keys == w.tokens.Keys
      && (action.asset.Native? ==> w'.tokens == w.tokens)
      && (action.asset.Token? ==>
            && w'.tokens == w.tokens[action.asset.address := w'.tokens[action.asset.address]]
            && PaidFrom(w.tokens[action.asset.address], w'.tokens[action.asset.address], action))
  {
    if action.asset.Token? {
      var t := w.tokens[action.asset.address];
      T.TransferConserves(t, Treasury, action.recipient, action.amount);
      if Treasury != action.recipient {
        T.MoveConserves(t, Treasury, action.recipient, action.amount);
        if T.NonNegative(t) { T.MoveKeepsNonNegative(t, Treasury, action.recipient, action.amount); }
      }
    }
  }

  /** The exact effect of a payout on the token: that amount, out of the treasury, to the recipient
      (net zero when the recipient is the treasury), supply and everything else unchanged. */
  ghost predicate PaidFrom(t: T.Token, t': T.Token, action: G.TreasuryAction) {
    && 0 < action.amount <= t.Balance(Treasury)
    && (forall a :: t'.Balance(a) ==
          t.Balance(a) + (if a == action.recipient then action.amount else 0)
          - (if a == Treasury then action.amount else 0))
    && t'.Supply() == t.Supply()
    && t' == t.(balances := t'.balances)
  }

  ghost predicate NonNegative(w: World) {
    forall a :: a in w.tokens ==> T.NonNegative(w.tokens[a])
  }

  lemma GovStepKeepsWorldOk(w: World, env: Env, caller: Address, call: G.GovCall)
    requires WorldOk(w) && GovStep(w, env, caller, call).Ok?
    ensures WorldOk(GovStep(w, env, caller, call).value)
    ensures NonNegative(w) ==> NonNegative(GovStep(w, env, caller, call).value)
  {
    if call.On? && call.act.ExecuteCall? {
      StepKeepsGovOk(w.gov, env, w.tokens, PayDue(w, env, call.id).Ok?, caller, call);
      if G.Due(w.gov, call.id).Some? {
        DisburseShape(w, env, Governance, G.Due(w.gov, call.id).value);
      }
    } else {
      StepKeepsGovOk(w.gov, env, w.tokens, false, caller, call);
    }
  }

  /** The initial supplies named by the transactions are not negative; the token contract does not check this. */
  predicate SoundIssue(txs: seq<Tx>) {
    forall k :: 0 <= k < |txs| ==> SoundTx(txs[k])
  }

  predicate SoundTx(tx: Tx) {
    tx.call.ToToken? && tx.call.tok.InitializeCall? ==> tx.call.tok.initialSupply >= 0
  }

  lemma ApplyKeepsWorldOk(w: World, tx: Tx)
    requires WorldOk(w)
    ensures WorldOk(Apply(w, tx))
    ensures NonNegative(w) && SoundTx(tx) ==> NonNegative(Apply(w, tx))
  {
    if Submit(w, tx).Ok? {
      match tx.call
      case ToGovernance(call) => GovStepKeepsWorldOk(w, tx.env, tx.caller, call);
      case ToToken(a, call) =>
        T.StepConserves(w.tokens[a], tx.env.sequence, tx.caller, call);
        if NonNegative(w) { T.StepKeepsNonNegative(w.tokens[a], tx.env.sequence, tx.caller, call); }
      case ToVault(InitializeCall(_)) =>
      case ToVault(DisburseCall(action)) => DisburseShape(w, tx.env, tx.caller, action);
    }
  }

  lemma {:induction false} RunKeepsWorldOk(ws: seq<World>, txs: seq<Tx>, k: nat)
    requires Run(ws, txs) && WorldOk(ws[0]) && k <= |txs|
    ensures WorldOk(ws[k])
  {
    if k > 0 {
      RunKeepsWorldOk(ws, txs, k - 1);
      assert StepAt(ws, txs, k - 1);
      ApplyKeepsWorldOk(ws[k - 1], txs[k - 1]);
    }
  }

  lemma {:induction false} RunKeepsNonNegative(ws: seq<World>, txs: seq<Tx>, k: nat)
    requires Run(ws, txs) && WorldOk(ws[0]) && NonNegative(ws[0]) && SoundIssue(txs) && k <= |txs|
    ensures WorldOk(ws[k]) && NonNegative(ws[k])
  {
    if k > 0 {
      RunKeepsNonNegative(ws, txs, k - 1);
      assert StepAt(ws, txs, k - 1);
      ApplyKeepsWorldOk(ws[k - 1], txs[k - 1]);
    }
  }

  lemma PrependedStep(w: World, tx: Tx, ws: seq<World>, txs: seq<Tx>, n: nat)
    requires Run(ws, txs) && ws[0] == Apply(w, tx) && n <= |txs|
    ensures StepAt([w] + ws, [tx] + txs, n)
  {
    var (ws', txs') := ([w] + ws, [tx] + txs);
    if n == 0 {
      assert ws'[1] == ws[0];
    } else {
      assert StepAt(ws, txs, n - 1);
      assert ws'[n + 1] == ws[n] && ws'[n] == ws[n - 1] && txs'[n] == txs[n - 1];
    }
  }

  /** A step in front of a run is a run. */
  lemma Prepend(w: World, tx: Tx, ws: seq<World>, txs: seq<Tx>)
    requires Run(ws, txs) && ws[0] == Apply(w, tx)
    ensures Run([w] + ws, [tx] + txs)
  {
    forall n | 0 <= n <= |txs| ensures StepAt([w] + ws, [tx] + txs, n) {
      PrependedStep(w, tx, ws, txs, n);
    }
  }

  /** A call to the governance contract is a transaction of that contract alone, unless it is an execution; contracts do
      not sign. */
  lemma SubmitToGovernance(w: World, env: Env, caller: Address, call: G.GovCall)
    requires !(call.On? && call.act.ExecuteCall?)
    ensures var r := Submit(w, Tx(env, caller, ToGovernance(call)));
      var s := G.Step(w.gov, env, w.tokens, false, caller, call);
      && (r.Ok? <==> caller.Other? && s.Ok?)
      && (r.Ok? ==> r.value == w.(gov := s.value))
  {
  }

  /** A call to a token contract is a transaction of that contract alone. */
  lemma SubmitToToken(w: World, env: Env, caller: Address, a: Address, call: T.TokenCall)
    ensures var r := Submit(w, Tx(env, caller, ToToken(a, call)));
      && (r.Ok? <==> caller.Other? && a in w.tokens && T.Step(w.tokens[a], env.sequence, caller, call).Ok?)
      && (r.Ok? ==>
            && a in w.tokens
            && r.value == w.(tokens := w.tokens[a := T.Step(w.tokens[a], env.sequence, caller, call).value]))
  {
  }

  /** What a transaction does to motion i. */
  ghost function Happens(w: World, tx: Tx, i: nat): Event {
    if tx.call.ToGovernance? && Submit(w, tx).Ok? then EventOn(w.gov, w.tokens, tx.caller, tx.call.gov, i)
    else Untouched
  }

  /** A transaction moves every existing motion by an allowed event and loses none. */
  lemma TxShape(w: World, tx: Tx)
    ensures var w' := Apply(w, tx);
      && |w.gov.motions| <= |w'.gov.motions| <= |w.gov.motions| + 1
      && (forall i :: 0 <= i < |w.gov.motions| ==>
            && Allowed(w.gov.motions[i], tx.env, Happens(w, tx, i))
            && w'.gov.motions[i] == Effect(w.gov.motions[i], tx.env, Happens(w, tx, i)))
  {
    if tx.call.ToGovernance? && Submit(w, tx).Ok? {
      var call := tx.call.gov;
      var paid := call.On? && call.act.ExecuteCall? && PayDue(w, tx.env, call.id).Ok?;
      StepShape(w.gov, tx.env, w.tokens, paid, tx.caller, call);
    }
  }

  lemma MotionsGrow(w: World, tx: Tx)
    ensures |w.gov.motions| <= |Apply(w, tx).gov.motions|
  {
    TxShape(w, tx);
  }

  lemma {:induction false} MotionsPersist(ws: seq<World>, txs: seq<Tx>, j: nat, k: nat)
    requires Run(ws, txs) && j <= k <= |txs|
    ensures |ws[j].gov.motions| <= |ws[k].gov.motions|
    decreases k
  {
    if j < k {
      MotionsPersist(ws, txs, j, k - 1);
      assert StepAt(ws, txs, k - 1);
      MotionsGrow(ws[k - 1], txs[k - 1]);
    }
  }

  /** Supply conservation over a run: what a token holds in total is what it was plus what was issued. */
  ghost function IssuedIn(ws: seq<World>, txs: seq<Tx>, k: nat, a: Address): int
    requires |ws| == |txs| + 1 && k <= |txs|
  {
    if k == 0 then 0
    else
      var (v, tx) := (ws[k - 1], txs[k - 1]);
      IssuedIn(ws, txs, k - 1, a) +
      if tx.call.ToToken? && tx.call.token == a && Submit(v, tx).Ok? then T.Issued(tx.call.tok) else 0
  }

  /** A disbursement leaves the supply and the allowances of every token alone. */
  lemma DisburseOnToken(w: World, env: Env, invoker: Address, action: G.TreasuryAction, a: Address)
    requires TokensOk(w) && a in w.tokens && Disburse(w, env, invoker, action).Ok?
    ensures var w' := Disburse(w, env, invoker, action).value;
      && a in w'.tokens && w'.tokens[a].Supply() == w.tokens[a].Supply()
      && w'.tokens[a].allowances == w.tokens[a].allowances && w'.vault.governance == w.vault.governance
  {
    DisburseShape(w, env, invoker, action);
  }

  /** So does every call to the governance contract. */
  lemma GovCallOnToken(w: World, env: Env, caller: Address, call: G.GovCall, a: Address)
    requires TokensOk(w) && a in w.tokens && GovStep(w, env, caller, call).Ok?
    ensures var w' := GovStep(w, env, caller, call).value;
      && a in w'.tokens && w'.tokens[a].Supply() == w.tokens[a].Supply()
      && w'.tokens[a].allowances == w.tokens[a].allowances && w'.vault.governance == w.vault.governance
  {
    if call.On? && call.act.ExecuteCall? && G.Due(w.gov, call.id).Some? {
      DisburseOnToken(w, env, Governance, G.Due(w.gov, call.id).value, a);
    }
  }

  /** And every call to the treasury. */
  lemma VaultCallOnToken(w: World, env: Env, caller: Address, call: VaultCall, a: Address)
    requires TokensOk(w) && a in w.tokens && VaultStep(w, env, caller, call).Ok?
    ensures var w' := VaultStep(w, env, caller, call).value;
      && a in w'.tokens && w'.tokens[a].Supply() == w.tokens[a].Supply()
      && w'.tokens[a].allowances == w.tokens[a].allowances
  {
    if call.DisburseCall? { DisburseOnToken(w, env, caller, call.action, a); }
  }

  lemma ApplySupply(w: World, tx: Tx, a: Address)
    requires WorldOk(w) && a in w.tokens
    ensures a in Apply(w, tx).tokens
    ensures Apply(w, tx).tokens[a].Supply() == w.tokens[a].Supply() +
      if tx.call.ToToken? && tx.call.token == a && Submit(w, tx).Ok? then T.Issued(tx.call.tok) else 0
  {
    if Submit(w, tx).Ok? {
      match tx.call
      case ToGovernance(call) => GovCallOnToken(w, tx.env, tx.caller, call, a);
      case ToToken(b, call) => T.StepConserves(w.tokens[b], tx.env.sequence, tx.caller, call);
      case ToVault(call) => VaultCallOnToken(w, tx.env, tx.caller, call, a);
    }
  }

  /** Token conservation in every run of the composed system: the balances always sum to what was
      issued, and no balance is negative when no token starts with a negative supply. */
  lemma {:induction false} RunConservesTokens(ws: seq<World>, txs: seq<Tx>, k: nat, a: Address)
    requires Run(ws, txs) && Genesis(ws[0]) && k <= |txs| && a in ws[0].tokens
    ensures var v := ws[k];
      && a in v.tokens
      && MapSum.Sum(v.tokens[a].balances, T.Amount) == IssuedIn(ws, txs, k, a)
      && (SoundIssue(txs) ==> forall b :: 0 <= v.tokens[a].Balance(b) <= IssuedIn(ws, txs, k, a))
  {
    GenesisOk(ws[0]);
    if k > 0 {
      RunConservesTokens(ws, txs, k - 1, a);
      RunKeepsWorldOk(ws, txs, k - 1);
      assert StepAt(ws, txs, k - 1);
      ApplySupply(ws[k - 1], txs[k - 1], a);
    }
    if SoundIssue(txs) {
      RunKeepsNonNegative(ws, txs, k);
      var t := ws[k].tokens[a];
      forall b ensures 0 <= t.Balance(b) <= t.Supply() {
        T.BalanceWithinSupply(t, b);
      }
    }
  }
}
