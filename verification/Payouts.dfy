/** Exactly-once payout across governance, treasury and token, over whole runs. */
module Payouts {
  import opened Host
  import opened SystemSpec
  import opened SystemLaws
  import opened GovernanceLaws
  import G = GovernanceSpec
  import T = TokenSpec
  import Lifecycle

  /** How often motion i has been paid out. */
  function Times(payouts: seq<Payout>, i: nat): nat {
    if payouts == [] then 0
    else Times(payouts[..|payouts| - 1], i) + if payouts[|payouts| - 1].id == i then 1 else 0
  }

  ghost predicate OwesPayout(g: G.Gov, i: nat) {
    i < |g.motions| && g.config.treasury.Some? && g.motions[i].state == G.Executed && g.motions[i].action.Some?
  }

  /** Recipient and amount of each payout, as the treasury announces them. */
  function Announced(payouts: seq<Payout>): (events: seq<(Address, i128)>)
    ensures |events| == |payouts|
  {
    if payouts == [] then []
    else
      var last := payouts[|payouts| - 1].action;
      Announced(payouts[..|payouts| - 1]) + [(last.recipient, last.amount)]
  }

  /** The payout log and the executed motions agree. */
  ghost predicate PayoutsOk(w: World) {
    && (forall i: nat :: Times(w.payouts, i) == if OwesPayout(w.gov, i) then 1 else 0)
    && (forall n :: 0 <= n < |w.payouts| ==>
          w.payouts[n].id < |w.gov.motions| && w.gov.motions[w.payouts[n].id].action == Some(w.payouts[n].action))
  }

  /** Who the treasury obeys decides whose disbursements it has announced. */
  ghost predicate VaultOk(w: World) {
    && (w.vault.governance != Some(Governance) ==> w.payouts == [])
    && (w.vault.governance == None ==> w.vault.events == [])
    && (w.vault.governance == Some(Governance) ==> w.vault.events == Announced(w.payouts))
  }

  // ------------------------------------------------------------------ one execution

  /** When the treasury pays: the exact condition, and that it pays from its own balance to the recipient named. */
  lemma DisburseSucceedsIff(w: World, env: Env, invoker: Address, action: G.TreasuryAction)
    ensures Disburse(w, env, invoker, action).Ok? <==>
      && w.vault.governance == Some(invoker)
      && match action.asset
         case Native => env.nativeOk
         case Token(a) =>
           a in w.tokens && !w.tokens[a].paused && 0 < action.amount <= w.tokens[a].Balance(Treasury)
           && (action.recipient != Treasury ==> w.tokens[a].Balance(action.recipient) + action.amount <= I128_MAX)
  {
  }

  /** The treasury is told once whom to obey; after that only that address can make it pay. */
  lemma VaultCallsTakeEffect(w: World, env: Env, caller: Address, call: VaultCall)
    ensures var r := Submit(w, Tx(env, caller, ToVault(call)));
      match call
      case InitializeCall(governance) =>
        && (r.Ok? <==> caller.Other? && w.vault.governance == None)
        && (r.Ok? ==> r.value == w.(vault := w.vault.(governance := Some(governance))))
      case DisburseCall(action) =>
        && (r.Ok? <==> caller.Other? && Disburse(w, env, caller, action).Ok?)
        && (r.Ok? ==> w.vault.governance == Some(caller) && r == Disburse(w, env, caller, action))
  {
  }

  /** The payout an execution of motion id owes: its action, if a treasury is configured. */
  function Owed(w: World, id: nat): Option<G.TreasuryAction>
    requires id < |w.gov.motions|
  {
    if w.gov.config.treasury == None then None else w.gov.motions[id].action
  }

  /** When an execution succeeds: the exact condition, down to the token transfer. */
  lemma ExecuteSucceedsIff(w: World, env: Env, caller: Address, id: u64)
    ensures Execute(w, env, caller, id).Ok? <==>
      && w.gov.config.admin == Some(caller)
      && id < |w.gov.motions| && w.gov.motions[id].state == G.Passed
      && (Owed(w, id).Some? ==>
            && w.gov.config.treasury == Some(Treasury) && w.vault.governance == Some(Governance)
            && var action := Owed(w, id).value;
               match action.asset
               case Native => env.nativeOk
               case Token(a) =>
                 a in w.tokens && !w.tokens[a].paused && 0 < action.amount <= w.tokens[a].Balance(Treasury)
                 && (action.recipient != Treasury ==>
                       w.tokens[a].Balance(action.recipient) + action.amount <= I128_MAX))
  {
  }

  /** A failing execution (a failing transfer included) leaves the motion Passed and the world as it was. */
  lemma FailedExecutionLeavesPassed(w: World, tx: Tx)
    requires tx.call.ToGovernance? && tx.call.gov.On? && tx.call.gov.act.ExecuteCall?
    requires tx.caller.Other? && tx.call.gov.id < |w.gov.motions| && w.gov.motions[tx.call.gov.id].state == G.Passed
    ensures Apply(w, tx) == w || Apply(w, tx).gov.motions[tx.call.gov.id].state == G.Executed
    ensures Apply(w, tx) == w <==> !Execute(w, tx.env, tx.caller, tx.call.gov.id).Ok?
  {
  }

  /** What a successful execution does, and all it does. */
  lemma ExecuteEffect(w: World, env: Env, caller: Address, id: u64)
    requires TokensOk(w) && Execute(w, env, caller, id).Ok?
    ensures id < |w.gov.motions| && w.gov.motions[id].state == G.Passed
    ensures var (w', due) := (Execute(w, env, caller, id).value, Owed(w, id));
      && w'.gov == w.gov.Put(id, w.gov.motions[id].(state := G.Executed))
      && w'.payouts == w.payouts + (if due.Some? then [Payout(id, due.value)] else [])
      && w'.vault == w.vault.(
           events := w.vault.events + (if due.Some? then [(due.value.recipient, due.value.amount)] else []))
      && (due.Some? ==> w.vault.governance == Some(Governance))
  {
    var due := G.Due(w.gov, id);
    if due.Some? {
      DisburseShape(w, env, Governance, due.value);
    }
  }

  /** The money: a payout moves exactly its amount out of the treasury to its recipient on the named
      token (net zero if the recipient is the treasury), conserves that token's supply, and touches no other token. */
  lemma ExecuteMovesExactly(w: World, env: Env, caller: Address, id: u64)
    requires TokensOk(w) && Execute(w, env, caller, id).Ok?
    ensures id < |w.gov.motions|
    ensures var (w', due) := (Execute(w, env, caller, id).value, Owed(w, id));
      if due.Some? && due.value.asset.Token? then
        var a := due.value.asset.address;
        && a in w.tokens && w'.tokens.Keys == w.tokens.Keys
        && PaidFrom(w.tokens[a], w'.tokens[a], due.value)
        && (forall b :: b in w.tokens && b != a ==> w'.tokens[b] == w.tokens[b])
      else w'.tokens == w.tokens
  {
    var due := G.Due(w.gov, id);
    if due.Some? {
      DisburseShape(w, env, Governance, due.value);
    }
  }

  // ------------------------------------------------------------------ every run

  lemma ExecutedMotionIsLogged(w: World, w': World, id: nat)
    requires PayoutsOk(w) && id < |w.gov.motions| && w.gov.motions[id].state == G.Passed
    requires w'.gov == w.gov.Put(id, w.gov.motions[id].(state := G.Executed))
    requires w'.payouts == w.payouts + (if G.Due(w.gov, id).Some? then [Payout(id, G.Due(w.gov, id).value)] else [])
    ensures PayoutsOk(w')
  {
    if G.Due(w.gov, id).Some? {
      assert w'.payouts[..|w.payouts|] == w.payouts;
    } else {
      assert w'.payouts == w.payouts;
    }
    forall i: nat
      ensures Times(w'.payouts, i) == if OwesPayout(w'.gov, i) then 1 else 0
    {
      assert Times(w.payouts, i) == if OwesPayout(w.gov, i) then 1 else 0;
    }
  }

  lemma ExecuteKeepsPayouts(w: World, env: Env, caller: Address, id: u64)
    requires TokensOk(w) && PayoutsOk(w) && VaultOk(w) && Execute(w, env, caller, id).Ok?
    ensures PayoutsOk(Execute(w, env, caller, id).value) && VaultOk(Execute(w, env, caller, id).value)
  {
    ExecuteEffect(w, env, caller, id);
    var w' := Execute(w, env, caller, id).value;
    ExecutedMotionIsLogged(w, w', id);
    if G.Due(w.gov, id).Some? {
      assert w'.payouts[..|w.payouts|] == w.payouts;
    }
  }

  lemma SettingKeepsTreasury(g: G.Gov, caller: Address, setting: G.ConfigCall)
    requires g.config.ready && G.StepConfig(g, caller, setting).Ok?
    ensures G.StepConfig(g, caller, setting).value.config.treasury == g.config.treasury
  {
  }

  /** The treasury address is set once, before there are motions. */
  lemma TreasuryIsFixed(w: World, tx: Tx)
    requires WorldOk(w) && |w.gov.motions| > 0
    ensures Apply(w, tx).gov.config.treasury == w.gov.config.treasury
  {
    if tx.call.ToGovernance? && Submit(w, tx).Ok? {
      var call := tx.call.gov;
      if call.Configure? {
        SettingKeepsTreasury(w.gov, tx.caller, call.setting);
      } else {
        var paid := call.On? && call.act.ExecuteCall? && PayDue(w, tx.env, call.id).Ok?;
        StepShape(w.gov, tx.env, w.tokens, paid, tx.caller, call);
      }
    }
  }

  predicate IsExecution(tx: Tx) {
    tx.call.ToGovernance? && tx.call.gov.On? && tx.call.gov.act.ExecuteCall?
  }

  /** Which motions exist with which action and are executed changes only by executions. */
  lemma OtherCallsExecuteNothing(w: World, tx: Tx, i: nat)
    requires !IsExecution(tx)
    ensures var (ms, ms') := (w.gov.motions, Apply(w, tx).gov.motions);
      && (i < |ms| ==> i < |ms'| && ms'[i].action == ms[i].action
                       && (ms'[i].state == G.Executed <==> ms[i].state == G.Executed))
      && (|ms| <= i < |ms'| ==> ms'[i].state != G.Executed)
  {
    TxShape(w, tx);
    if i < |w.gov.motions| {
      Lifecycle.EventKeepsIdentity(w.gov.motions[i], tx.env, Happens(w, tx, i));
    } else if i < |Apply(w, tx).gov.motions| {
      Lifecycle.Appears(w, tx);
    }
  }

  lemma OtherCallsOweNothing(w: World, tx: Tx, i: nat)
    requires WorldOk(w) && !IsExecution(tx)
    ensures OwesPayout(Apply(w, tx).gov, i) <==> OwesPayout(w.gov, i)
  {
    OtherCallsExecuteNothing(w, tx, i);
    if |w.gov.motions| > 0 { TreasuryIsFixed(w, tx); }
  }

  lemma OtherCallsKeepVaultOk(w: World, tx: Tx)
    requires VaultOk(w) && !IsExecution(tx)
    ensures VaultOk(Apply(w, tx)) && Apply(w, tx).payouts == w.payouts
  {
  }

  lemma ApplyKeepsPayouts(w: World, tx: Tx)
    requires WorldOk(w) && PayoutsOk(w) && VaultOk(w)
    ensures PayoutsOk(Apply(w, tx)) && VaultOk(Apply(w, tx))
  {
    if IsExecution(tx) {
      if Submit(w, tx).Ok? { ExecuteKeepsPayouts(w, tx.env, tx.caller, tx.call.gov.id); }
    } else {
      OtherCallsKeepVaultOk(w, tx);
      forall i: nat
        ensures OwesPayout(Apply(w, tx).gov, i) <==> OwesPayout(w.gov, i)
      {
        OtherCallsOweNothing(w, tx, i);
      }
      forall n | 0 <= n < |w.payouts|
        ensures w.payouts[n].id < |Apply(w, tx).gov.motions|
        ensures Apply(w, tx).gov.motions[w.payouts[n].id].action == Some(w.payouts[n].action)
      {
        OtherCallsExecuteNothing(w, tx, w.payouts[n].id);
      }
    }
  }

  lemma {:induction false} RunKeepsPayouts(ws: seq<World>, txs: seq<Tx>, k: nat)
    requires Run(ws, txs) && Genesis(ws[0]) && k <= |txs|
    ensures PayoutsOk(ws[k]) && VaultOk(ws[k])
  {
    GenesisOk(ws[0]);
    if k > 0 {
      RunKeepsPayouts(ws, txs, k - 1);
      RunKeepsWorldOk(ws, txs, k - 1);
      assert StepAt(ws, txs, k - 1);
      ApplyKeepsPayouts(ws[k - 1], txs[k - 1]);
    }
  }

  /** The payout is what the draft of its motion asked for when the motion was created. */
  ghost predicate PaidAsDrafted(ws: seq<World>, txs: seq<Tx>, k: nat, p: Payout) {
    exists c: nat, d :: c < k && Lifecycle.Drafts(ws, txs, c, p.id, d) && d.action == Some(p.action)
  }

  lemma LoggedAsDrafted(ws: seq<World>, txs: seq<Tx>, k: nat, n: nat)
    requires Run(ws, txs) && Genesis(ws[0]) && k <= |txs| && PayoutsOk(ws[k]) && n < |ws[k].payouts|
    ensures PaidAsDrafted(ws, txs, k, ws[k].payouts[n])
  {
    var id := ws[k].payouts[n].id;
    var c, d := Lifecycle.BornFromDraft(ws, txs, k, id);
    Lifecycle.StaysAsDrafted(ws, txs, c, k, id, d);
  }

  /** Exactly-once payout: after any run from deployment the payout log holds exactly one entry for every
      Executed motion with an action when a treasury is configured, and none otherwise; each entry is the
      motion's action, as drafted in the call that created it; and a treasury that obeys governance has announced
      exactly the log. */
  lemma PaidExactlyOnce(ws: seq<World>, txs: seq<Tx>, k: nat)
    requires Run(ws, txs) && Genesis(ws[0]) && k <= |txs|
    ensures PayoutsOk(ws[k]) && VaultOk(ws[k])
    ensures forall n :: 0 <= n < |ws[k].payouts| ==> PaidAsDrafted(ws, txs, k, ws[k].payouts[n])
  {
    RunKeepsPayouts(ws, txs, k);
    forall n | 0 <= n < |ws[k].payouts| ensures PaidAsDrafted(ws, txs, k, ws[k].payouts[n]) {
      LoggedAsDrafted(ws, txs, k, n);
    }
  }

  // ------------------------------------------------------------------ until it can be paid

  /** Transaction n executes motion i successfully. */
  ghost predicate ExecutesNow(ws: seq<World>, txs: seq<Tx>, n: nat, i: nat)
    requires n < |txs| && n < |ws|
  {
    IsExecution(txs[n]) && txs[n].call.gov.id == i && Submit(ws[n], txs[n]).Ok?
  }

  ghost predicate ExecutedBetween(ws: seq<World>, txs: seq<Tx>, j: nat, k: nat, i: nat)
    requires |ws| == |txs| + 1 && k <= |txs|
  {
    exists n :: j <= n < k && ExecutesNow(ws, txs, n, i)
  }

  lemma NextPassed(ws: seq<World>, txs: seq<Tx>, j: nat, i: nat)
    requires Run(ws, txs) && j < |txs| && Lifecycle.Exists(ws, j, i) && Lifecycle.MotionAt(ws, j, i).state == G.Passed
    ensures Lifecycle.Exists(ws, j + 1, i)
    ensures var (m, m') := (Lifecycle.MotionAt(ws, j, i), Lifecycle.MotionAt(ws, j + 1, i));
      m' == if ExecutesNow(ws, txs, j, i) then m.(state := G.Executed) else m
  {
    Lifecycle.Next(ws, txs, j, i);
    if IsExecution(txs[j]) && txs[j].call.gov.id == i && txs[j].caller.Other? {
      assert StepAt(ws, txs, j);
      FailedExecutionLeavesPassed(ws[j], txs[j]);
    }
  }

  /** A Passed motion waits: through any number of failed executions, and whatever else happens, it stays exactly as it
      is, ready to be executed, until an execution succeeds. `ExecuteSucceedsIff` says when one does. */
  lemma {:induction false} PassedUntilExecuted(ws: seq<World>, txs: seq<Tx>, j: nat, k: nat, i: nat)
    requires Run(ws, txs) && j <= k <= |txs| && Lifecycle.Exists(ws, j, i)
    requires Lifecycle.MotionAt(ws, j, i).state == G.Passed
    ensures Lifecycle.Exists(ws, k, i)
    ensures var (m, m') := (Lifecycle.MotionAt(ws, j, i), Lifecycle.MotionAt(ws, k, i));
      m' == if ExecutedBetween(ws, txs, j, k, i) then m.(state := G.Executed) else m
    decreases k
  {
    if j < k {
      PassedUntilExecuted(ws, txs, j, k - 1, i);
      if ExecutedBetween(ws, txs, j, k - 1, i) {
        Lifecycle.NextClosed(ws, txs, k - 1, i);
      } else {
        NextPassed(ws, txs, k - 1, i);
      }
    }
  }

  // ------------------------------------------------------------------ the treasury's funds

  /** Total paid out on token a. */
  function PaidOn(payouts: seq<Payout>, a: Address): int {
    if payouts == [] then 0
    else
      var last := payouts[|payouts| - 1].action;
      PaidOn(payouts[..|payouts| - 1], a) + if last.asset == G.Token(a) then last.amount as int else 0
  }

  /** Nobody holds an allowance over the treasury's tokens. */
  ghost predicate NoVaultAllowance(w: World) {
    forall a, s :: a in w.tokens ==> (Treasury, s) !in w.tokens[a].allowances
  }

  /** The token admin burns from the treasury. */
  predicate BurnsVault(tx: Tx, a: Address) {
    tx.call.ToToken? && tx.call.token == a && tx.call.tok.BurnCall? && tx.call.tok.from == Treasury
  }

  /** What a token call brings the treasury. */
  function Received(call: T.TokenCall): int {
    match call
    case InitializeCall(owner, supply, _) => if owner == Treasury then supply else 0
    case TransferCall(to, amount) => if to == Treasury then amount else 0
    case TransferFromCall(_, to, amount) => if to == Treasury then amount else 0
    case MintCall(to, amount) => if to == Treasury then amount else 0
    case _ => 0
  }

  /** What the token admin's burns take from it. */
  function Burnt(call: T.TokenCall): int {
    if call.BurnCall? && call.from == Treasury then call.amount else 0
  }

  lemma TokenCallMovesVault(t: T.Token, ledger: u32, caller: Address, call: T.TokenCall)
    requires T.Wf(t) && caller.Other? && T.Step(t, ledger, caller, call).Ok?
    requires forall s :: (Treasury, s) !in t.allowances
    ensures T.Step(t, ledger, caller, call).value.Balance(Treasury) ==
      t.Balance(Treasury) + Received(call) - Burnt(call)
  {
  }

  /** What a transaction brings the treasury in token a, a payout to itself included. */
  ghost function Inflow(w: World, tx: Tx, a: Address): int {
    if !Submit(w, tx).Ok? then 0
    else match tx.call
      case ToToken(b, call) => if b == a then Received(call) else 0
      case ToGovernance(call) =>
        if IsExecution(tx) && call.id < |w.gov.motions| && G.Due(w.gov, call.id).Some?
           && G.Due(w.gov, call.id).value.asset == G.Token(a) && G.Due(w.gov, call.id).value.recipient == Treasury
        then G.Due(w.gov, call.id).value.amount else 0
      case ToVault(_) => 0
  }

  /** What a transaction burns from the treasury in token a. */
  ghost function BurntFrom(w: World, tx: Tx, a: Address): int {
    if Submit(w, tx).Ok? && BurnsVault(tx, a) then tx.call.tok.amount else 0
  }

  lemma ExecutionMovesVault(w: World, tx: Tx, a: Address)
    requires WorldOk(w) && a in w.tokens && IsExecution(tx) && Submit(w, tx).Ok?
    ensures var w' := Apply(w, tx);
      && a in w'.tokens
      && w'.tokens[a].Balance(Treasury) ==
           w.tokens[a].Balance(Treasury) + Inflow(w, tx, a) - (PaidOn(w'.payouts, a) - PaidOn(w.payouts, a))
  {
    var call := tx.call.gov;
    ExecuteEffect(w, tx.env, tx.caller, call.id);
    ExecuteMovesExactly(w, tx.env, tx.caller, call.id);
    assert Apply(w, tx).payouts[..|w.payouts|] == w.payouts;
  }

  lemma ApplyMovesVault(w: World, tx: Tx, a: Address)
    requires WorldOk(w) && NoVaultAllowance(w) && a in w.tokens && w.vault.governance == Some(Governance)
    ensures var w' := Apply(w, tx);
      && a in w'.tokens
      && w'.tokens[a].Balance(Treasury) ==
           w.tokens[a].Balance(Treasury) + Inflow(w, tx, a) - BurntFrom(w, tx, a)
           - (PaidOn(w'.payouts, a) - PaidOn(w.payouts, a))
  {
    if Submit(w, tx).Ok? {
      match tx.call
      case ToGovernance(call) => if IsExecution(tx) { ExecutionMovesVault(w, tx, a); }
      case ToToken(b, call) => if b == a { TokenCallMovesVault(w.tokens[b], tx.env.sequence, tx.caller, call); }
      case ToVault(_) =>
    }
  }

  lemma TokenCallGrantsNothing(t: T.Token, ledger: u32, caller: Address, call: T.TokenCall, s: Address)
    requires caller.Other? && T.Step(t, ledger, caller, call).Ok? && (Treasury, s) !in t.allowances
    ensures (Treasury, s) !in T.Step(t, ledger, caller, call).value.allowances
  {
  }

  lemma SubmitGrantsNothing(w: World, tx: Tx, a: Address, s: Address)
    requires TokensOk(w) && NoVaultAllowance(w) && Submit(w, tx).Ok?
    ensures var w' := Submit(w, tx).value;
      a in w'.tokens ==> a in w.tokens && (Treasury, s) !in w'.tokens[a].allowances
  {
    match tx.call
    case ToGovernance(call) => if a in w.tokens { GovCallOnToken(w, tx.env, tx.caller, call, a); }
    case ToToken(b, call) =>
      if b == a { TokenCallGrantsNothing(w.tokens[b], tx.env.sequence, tx.caller, call, s); }
    case ToVault(call) => if a in w.tokens { VaultCallOnToken(w, tx.env, tx.caller, call, a); }
  }

  lemma ApplyKeepsNoVaultAllowance(w: World, tx: Tx)
    requires TokensOk(w) && NoVaultAllowance(w)
    ensures NoVaultAllowance(Apply(w, tx))
  {
    if Submit(w, tx).Ok? {
      forall a, s | a in Apply(w, tx).tokens ensures (Treasury, s) !in Apply(w, tx).tokens[a].allowances {
        SubmitGrantsNothing(w, tx, a, s);
      }
    }
  }

  lemma ApplyKeepsVaultGovernance(w: World, tx: Tx)
    requires w.vault.governance == Some(Governance)
    ensures Apply(w, tx).vault.governance == Some(Governance)
  {
  }

  lemma {:induction false} RunKeepsNoVaultAllowance(ws: seq<World>, txs: seq<Tx>, k: nat)
    requires Run(ws, txs) && Genesis(ws[0]) && k <= |txs|
    ensures NoVaultAllowance(ws[k])
  {
    if k > 0 {
      RunKeepsNoVaultAllowance(ws, txs, k - 1);
      GenesisOk(ws[0]);
      RunKeepsWorldOk(ws, txs, k - 1);
      assert StepAt(ws, txs, k - 1);
      ApplyKeepsNoVaultAllowance(ws[k - 1], txs[k - 1]);
    }
  }

  ghost function InflowBetween(ws: seq<World>, txs: seq<Tx>, j: nat, k: nat, a: Address): int
    requires |ws| == |txs| + 1 && j <= k <= |txs|
    decreases k
  {
    if j == k then 0 else InflowBetween(ws, txs, j, k - 1, a) + Inflow(ws[k - 1], txs[k - 1], a)
  }

  ghost function BurntBetween(ws: seq<World>, txs: seq<Tx>, j: nat, k: nat, a: Address): int
    requires |ws| == |txs| + 1 && j <= k <= |txs|
    decreases k
  {
    if j == k then 0 else BurntBetween(ws, txs, j, k - 1, a) + BurntFrom(ws[k - 1], txs[k - 1], a)
  }

  lemma NextMovesVault(ws: seq<World>, txs: seq<Tx>, j: nat, a: Address)
    requires Run(ws, txs) && Genesis(ws[0]) && j < |txs|
    requires a in ws[j].tokens && ws[j].vault.governance == Some(Governance)
    ensures a in ws[j + 1].tokens && ws[j + 1].vault.governance == Some(Governance)
    ensures ws[j + 1].tokens[a].Balance(Treasury) == ws[j].tokens[a].Balance(Treasury)
      + Inflow(ws[j], txs[j], a) - BurntFrom(ws[j], txs[j], a)
      - (PaidOn(ws[j + 1].payouts, a) - PaidOn(ws[j].payouts, a))
  {
    GenesisOk(ws[0]);
    RunKeepsWorldOk(ws, txs, j);
    RunKeepsNoVaultAllowance(ws, txs, j);
    assert StepAt(ws, txs, j);
    ApplyKeepsVaultGovernance(ws[j], txs[j]);
    ApplyMovesVault(ws[j], txs[j], a);
  }

  /** The treasury's books: in any run from deployment, once the treasury obeys governance, its balance of any token
      is what it was, plus what came in, less exactly the logged payouts in that token, less what the token's admin
      burned from it. */
  lemma {:induction false} TreasuryBalanceIsExact(ws: seq<World>, txs: seq<Tx>, j: nat, k: nat, a: Address)
    requires Run(ws, txs) && Genesis(ws[0]) && j <= k <= |txs|
    requires a in ws[j].tokens && ws[j].vault.governance == Some(Governance)
    ensures a in ws[k].tokens && ws[k].vault.governance == Some(Governance)
    ensures ws[k].tokens[a].Balance(Treasury) == ws[j].tokens[a].Balance(Treasury)
      + InflowBetween(ws, txs, j, k, a) - BurntBetween(ws, txs, j, k, a)
      - (PaidOn(ws[k].payouts, a) - PaidOn(ws[j].payouts, a))
    decreases k
  {
    if j < k {
      TreasuryBalanceIsExact(ws, txs, j, k - 1, a);
      NextMovesVault(ws, txs, k - 1, a);
    }
  }

  lemma InflowNonNegative(w: World, tx: Tx, a: Address)
    requires SoundTx(tx)
    ensures Inflow(w, tx, a) >= 0
  {
    if IsExecution(tx) && Submit(w, tx).Ok? {
      ExecuteSucceedsIff(w, tx.env, tx.caller, tx.call.gov.id);
    }
  }

  /** So funds leave only through executed motions, unless the token's admin burns. */
  lemma {:induction false} FundsLeaveOnlyByPayout(ws: seq<World>, txs: seq<Tx>, j: nat, k: nat, a: Address)
    requires Run(ws, txs) && Genesis(ws[0]) && SoundIssue(txs) && j <= k <= |txs|
    requires a in ws[j].tokens && ws[j].vault.governance == Some(Governance)
    requires forall n :: j <= n < k ==> !BurnsVault(txs[n], a)
    ensures a in ws[k].tokens && ws[k].vault.governance == Some(Governance)
    ensures ws[k].tokens[a].Balance(Treasury) >=
      ws[j].tokens[a].Balance(Treasury) - (PaidOn(ws[k].payouts, a) - PaidOn(ws[j].payouts, a))
    decreases k
  {
    if j < k {
      FundsLeaveOnlyByPayout(ws, txs, j, k - 1, a);
      NextMovesVault(ws, txs, k - 1, a);
      InflowNonNegative(ws[k - 1], txs[k - 1], a);
    }
  }
}
