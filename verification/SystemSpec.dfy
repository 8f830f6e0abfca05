/** The composed protocol: governance, its treasury and the token contracts of one ledger, driven by
    arbitrary interleavings of transactions. */
module SystemSpec {
  import opened Host
  import G = GovernanceSpec
  import T = TokenSpec

  /** The treasury contract: whom it obeys, and the disbursements it has announced. */
  datatype Vault = Vault(governance: Option<Address>, events: seq<(Address, i128)>)

  /** A payout made by an execution. */
  datatype Payout = Payout(id: nat, action: G.TreasuryAction)

  datatype World = World(gov: G.Gov, tokens: map<Address, T.Token>, vault: Vault, payouts: seq<Payout>)

  datatype VaultCall = InitializeCall(governance: Address) | DisburseCall(action: G.TreasuryAction)

  datatype Call =
    | ToGovernance(gov: G.GovCall)
    | ToToken(token: Address, tok: T.TokenCall)
    | ToVault(vlt: VaultCall)

  /** A transaction signed by `caller`. */
  datatype Tx = Tx(env: Env, caller: Address, call: Call)

  function InitializeVault(w: World, governance: Address): Outcome<World> {
    var check := Unless(w.vault.governance.Some?);
    :- check;
    Ok(w.(vault := w.vault.(governance := Some(governance))))
  }

  /** The token contracts after the treasury has paid, if it can. */
  function Pay(tokens: map<Address, T.Token>, env: Env, action: G.TreasuryAction): Outcome<map<Address, T.Token>> {
    match action.asset
    case Native =>
      :- Unless(!env.nativeOk);
      Ok(tokens)
    case Token(a) =>
      :- Unless(a !in tokens || !T.Transfer(tokens[a], Treasury, action.recipient, action.amount).Ok?);
      Ok(tokens[a := T.Transfer(tokens[a], Treasury, action.recipient, action.amount).value])
  }

  /** `invoker` is the address whose authority the host can see: the signer, or the calling contract. */
  function Disburse(w: World, env: Env, invoker: Address, action: G.TreasuryAction): Outcome<World> {
    var check := Unless(w.vault.governance != Some(invoker));
    :- check;
    var paid :- Pay(w.tokens, env, action);
    Ok(w.(tokens := paid, vault := w.vault.(events := w.vault.events + [(action.recipient, action.amount)])))
  }

  /** A disbursement the treasury obeys ends the way its payment ends, with one more announcement if that succeeds. */
  lemma DisburseEnds(w: World, env: Env, invoker: Address, action: G.TreasuryAction, r: Outcome<()>,
                     tokens: map<Address, T.Token>)
    requires w.vault.governance == Some(invoker) && Matches(Pay(w.tokens, env, action), r, w.tokens, tokens)
    ensures var announced := w.vault.(events := w.vault.events + [(action.recipient, action.amount)]);
      Matches(Disburse(w, env, invoker, action), r, w,
              w.(tokens := tokens, vault := if r.Ok? then announced else w.vault))
  {
  }

  /** The cross-contract call an execution makes when a payout is due. */
  function PayDue(w: World, env: Env, id: nat): Outcome<World> {
    if id >= |w.gov.motions| || G.Due(w.gov, id).None? then Ok(w)
    else if w.gov.config.treasury != Some(Treasury) then Trap
    else Disburse(w, env, Governance, G.Due(w.gov, id).value)
  }

  function Execute(w: World, env: Env, caller: Address, id: u64): Outcome<World> {
    var paid := PayDue(w, env, id);
    var g :- G.Execute(w.gov, caller, id, paid.Ok?);
    var due := G.Due(w.gov, id);
    if due.None? then Ok(w.(gov := g))
    else Ok(paid.value.(gov := g, payouts := w.payouts + [Payout(id, due.value)]))
  }

  /** The payout an execution logs, if any. */
  function Logged(w: World, id: nat): seq<Payout>
    requires id < |w.gov.motions|
  {
    if G.Due(w.gov, id).Some? then [Payout(id, G.Due(w.gov, id).value)] else []
  }

  /** What is left of an execution once the caller and the motion are checked: pay, log, mark. */
  function Settle(w: World, env: Env, id: nat): Outcome<World>
    requires id < |w.gov.motions|
  {
    var paid := PayDue(w, env, id);
    :- Unless(!paid.Ok?);
    Ok(paid.value.(gov := w.gov.Put(id, w.gov.motions[id].(state := G.Executed)), payouts := w.payouts + Logged(w, id)))
  }

  /** How settling ends, from how the payout ends. */
  lemma SettleEnds(w: World, env: Env, id: nat)
    requires id < |w.gov.motions|
    ensures var executed := w.gov.Put(id, w.gov.motions[id].(state := G.Executed));
      Settle(w, env, id) == match PayDue(w, env, id)
        case Ok(after) => Ok(after.(gov := executed, payouts := w.payouts + Logged(w, id)))
        case _ => Trap
  {
  }

  lemma ExecuteSettles(w: World, env: Env, caller: Address, id: u64)
    requires w.gov.AsAdmin(caller) == Pass && id < |w.gov.motions| && w.gov.motions[id].state == G.Passed
    ensures Execute(w, env, caller, id) == Settle(w, env, id)
  {
    if G.Due(w.gov, id).None? {
      assert w.payouts + Logged(w, id) == w.payouts;
    }
  }

  /** The checks of an execution, in order; then it settles. */
  lemma ExecuteEnds(w: World, env: Env, caller: Address, id: u64)
    ensures Execute(w, env, caller, id) ==
      if w.gov.AsAdmin(caller) != Pass then w.gov.AsAdmin(caller).PropagateFailure()
      else if id >= |w.gov.motions| then Err(ProposalNotFound)
      else if w.gov.motions[id].state != G.Passed then Err(ProposalNotPassed)
      else Settle(w, env, id)
  {
    if w.gov.AsAdmin(caller) == Pass && id < |w.gov.motions| && w.gov.motions[id].state == G.Passed {
      ExecuteSettles(w, env, caller, id);
    }
  }

  ghost function GovStep(w: World, env: Env, caller: Address, call: G.GovCall): Outcome<World> {
    if call.On? && call.act.ExecuteCall? then Execute(w, env, caller, call.id)
    else
      var g :- G.Step(w.gov, env, w.tokens, false, caller, call);
      Ok(w.(gov := g))
  }

  /** Any call but an execution ends the ledger's step the way it ends on the governance state. */
  lemma GovStepEnds(w: World, env: Env, caller: Address, call: G.GovCall, r: Outcome<()>, g: G.Gov)
    requires !(call.On? && call.act.ExecuteCall?)
    requires Matches(G.Step(w.gov, env, w.tokens, false, caller, call), r, w.gov, g)
    ensures Matches(GovStep(w, env, caller, call), r, w, w.(gov := g))
  {
  }

  ghost function TokenStep(w: World, env: Env, caller: Address, a: Address, call: T.TokenCall): Outcome<World> {
    var tokens :- T.StepIn(w.tokens, a, env.sequence, caller, call);
    Ok(w.(tokens := tokens))
  }

  /** A token call ends the ledger's step the way it ends on the token contracts. */
  lemma TokenStepEnds(w: World, env: Env, caller: Address, a: Address, call: T.TokenCall, r: Outcome<()>,
                      tokens: map<Address, T.Token>)
    requires Matches(T.StepIn(w.tokens, a, env.sequence, caller, call), r, w.tokens, tokens)
    ensures Matches(TokenStep(w, env, caller, a, call), r, w, w.(tokens := tokens))
  {
  }

  function VaultStep(w: World, env: Env, caller: Address, call: VaultCall): Outcome<World> {
    match call
    case InitializeCall(governance) => InitializeVault(w, governance)
    case DisburseCall(action) => Disburse(w, env, caller, action)
  }

  ghost function Submit(w: World, tx: Tx): Outcome<World> {
    if !tx.caller.Other? then Trap  // contracts do not sign
    else match tx.call
      case ToGovernance(call) => GovStep(w, tx.env, tx.caller, call)
      case ToToken(a, call) => TokenStep(w, tx.env, tx.caller, a, call)
      case ToVault(call) => VaultStep(w, tx.env, tx.caller, call)
  }

  /** A failed transaction leaves no trace. */
  ghost function Apply(w: World, tx: Tx): World {
    if Submit(w, tx).Ok? then Submit(w, tx).value else w
  }

  ghost predicate StepAt(ws: seq<World>, txs: seq<Tx>, n: nat)
    requires n < |txs| && n + 1 < |ws|
  {
    ws[n + 1] == Apply(ws[n], txs[n])
  }

  /** A run: the worlds a sequence of transactions leads through, the first one included. */
  ghost predicate Run(ws: seq<World>, txs: seq<Tx>) {
    && |ws| == |txs| + 1
    && forall n :: 0 <= n < |txs| ==> StepAt(ws, txs, n)
  }

  /** Every sequence of transactions has a run from every world. */
  ghost function RunFrom(w: World, txs: seq<Tx>): (ws: seq<World>)
    ensures |ws| == |txs| + 1 && ws[0] == w && Run(ws, txs)
  {
    if txs == [] then [w]
    else
      var ws := RunFrom(w, txs[..|txs| - 1]);
      var longer := ws + [Apply(ws[|txs| - 1], txs[|txs| - 1])];
      assert forall n :: 0 <= n < |txs| - 1 ==> StepAt(ws, txs[..|txs| - 1], n) ==> StepAt(longer, txs, n);
      longer
  }

  /** Nothing has happened yet: every contract is deployed and none is initialized. */
  predicate Genesis(w: World) {
    && w.gov == G.DEPLOYED
    && (forall a :: a in w.tokens ==> a.Other? && w.tokens[a] == T.DEPLOYED)
    && w.vault == Vault(None, [])
    && w.payouts == []
  }
}
