/** The whole ledger as it is written: the three contracts as objects, and a host that hands each
    transaction to its contract. Driving it with any list of transactions leads through exactly the
    worlds of the run that `SystemSpec` prescribes, so what is proved about runs holds of the storage. */
module System {
  import opened Host
  import opened GovernanceContract
  import opened TokenContract
  import opened TreasuryContract
  import S = SystemSpec
  import T = TokenSpec

  class Ledger {
    const governance: GovernanceContract
    const treasury: TreasuryContract
    const tokens: Registry

    ghost predicate Valid()
      reads governance, tokens.Values
    {
      governance.Valid() && AllValid(tokens)
    }

    ghost function State(): S.World
      reads governance, treasury, tokens.Values
    {
      governance.World(tokens, treasury)
    }

    constructor (tokens: Registry)
      requires AllValid(tokens)
      requires forall a :: a in tokens ==> a.Other? && tokens[a].State() == T.DEPLOYED
      ensures this.tokens == tokens && fresh(governance) && fresh(treasury)
      ensures Valid() && S.Genesis(State())
    {
      this.tokens := tokens;
      governance := new GovernanceContract();
      treasury := new TreasuryContract();
    }

    method Submit(tx: S.Tx) returns (r: Outcome<()>)
      requires Valid()
      modifies governance, treasury, tokens.Values
      ensures Valid()
      ensures Matches(S.Submit(old(State()), tx), r, old(State()), State())
    {
      if !tx.caller.Other? {
        return Trap;
      }
      match tx.call
      case ToGovernance(call) => r := governance.Invoke(tx.env, tokens, treasury, tx.caller, call);
      case ToToken(a, call) => r := SubmitToToken(tx.env, tx.caller, a, call);
      case ToVault(call) => r := SubmitToVault(tx.env, tx.caller, call);
    }

    method SubmitToToken(env: Env, caller: Address, a: Address, call: T.TokenCall) returns (r: Outcome<()>)
      requires Valid()
      modifies tokens.Values
      ensures Valid()
      ensures Matches(S.TokenStep(old(State()), env, caller, a, call), r, old(State()), State())
    {
      ghost var w := State();
      r := InvokeAt(tokens, a, env.sequence, caller, call);
      S.TokenStepEnds(w, env, caller, a, call, r, States(tokens));
    }

    method SubmitToVault(env: Env, caller: Address, call: S.VaultCall) returns (r: Outcome<()>)
      requires Valid()
      modifies treasury, tokens.Values
      ensures Valid()
      ensures Matches(S.VaultStep(old(State()), env, caller, call), r, old(State()), State())
    {
      ghost var w := State();
      match call
      case InitializeCall(address) =>
        r := treasury.Initialize(address, w);
        assert State() == w.(vault := treasury.State());
      case DisburseCall(action) =>
        r := treasury.Disburse(env, tokens, caller, action, w);
        assert State() == w.(vault := treasury.State(), tokens := States(tokens));
    }

    /** Submit transactions one after another, whatever each one's outcome. */
    method Replay(txs: seq<S.Tx>) returns (ghost ws: seq<S.World>)
      requires Valid()
      modifies governance, treasury, tokens.Values
      ensures Valid()
      ensures S.Run(ws, txs) && ws[0] == old(State()) && ws[|txs|] == State()
    {
      ws := [State()];
      for n := 0 to |txs|
        invariant Valid()
        invariant |ws| == n + 1 && ws[0] == old(State()) && ws[n] == State()
        invariant forall i :: 0 <= i < n ==> ws[i + 1] == S.Apply(ws[i], txs[i])
      {
        var r := Submit(txs[n]);
        ws := ws + [State()];
      }
      assert forall n :: 0 <= n < |txs| ==> S.StepAt(ws, txs, n);
    }
  }
}
