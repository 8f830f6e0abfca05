/** The treasury contract: obeys one governance address, set once, and pays by calling token contracts. */
module TreasuryContract {
  import opened Host
  import opened TokenContract
  import G = GovernanceSpec
  import S = SystemSpec
  import T = TokenSpec

  class TreasuryContract {
    var governance: Option<Address>
    var events: seq<(Address, i128)>

    ghost function State(): S.Vault
      reads this
    {
      S.Vault(governance, events)
    }

    constructor ()
      ensures State() == S.Vault(None, [])
    {
      governance, events := None, [];
    }

    method Initialize(address: Address, ghost w: S.World) returns (r: Outcome<()>)
      requires w.vault == State()
      modifies this
      ensures Matches(S.InitializeVault(w, address), r, w, w.(vault := State()))
    {
      if governance.Some? {
        return Trap;
      }
      governance := Some(address);
      return Ok(());
    }

    /** Pay `action` on the authority of `invoker`. `w` is the world this call happens in. */
    method Disburse(env: Env, tokens: Registry, invoker: Address, action: G.TreasuryAction,
                    ghost w: S.World) returns (r: Outcome<()>)
      requires AllValid(tokens) && w.tokens == States(tokens) && w.vault == State()
      modifies this, tokens.Values
      ensures AllValid(tokens)
      ensures Matches(S.Disburse(w, env, invoker, action), r, w, w.(vault := State(), tokens := States(tokens)))
    {
      if governance != Some(invoker) {
        return Trap;
      }
      r := Pay(env, tokens, action);
      S.DisburseEnds(w, env, invoker, action, r, States(tokens));
      if r.Ok? {
        Announce(action, tokens);
      }
    }

    /** The event a disbursement emits; publishing it does not touch the tokens. */
    method Announce(action: G.TreasuryAction, ghost tokens: Registry)
      requires AllValid(tokens)
      modifies this`events
      ensures AllValid(tokens) && States(tokens) == old(States(tokens))
      ensures State() == old(State()).(events := old(events) + [(action.recipient, action.amount)])
    {
      events := events + [(action.recipient, action.amount)];
    }

    /** The asset branches of disburse. */
    method Pay(env: Env, tokens: Registry, action: G.TreasuryAction) returns (r: Outcome<()>)
      requires AllValid(tokens)
      modifies tokens.Values
      ensures AllValid(tokens)
      ensures Matches(S.Pay(old(States(tokens)), env, action), r, old(States(tokens)), States(tokens))
    {
      if action.asset.Native? {
        if !env.nativeOk {
          return Trap;
        }
        return Ok(());
      }
      r := Send(tokens, action.asset.address, action.recipient, action.amount);
      if !r.Ok? {
        return Trap;
      }
    }

    /** The transfer call to the token contract at address a. */
    method Send(tokens: Registry, a: Address, recipient: Address, amount: i128) returns (r: Outcome<()>)
      requires AllValid(tokens)
      modifies tokens.Values
      ensures AllValid(tokens)
      ensures r.Ok? <==> a in tokens && T.Transfer(old(States(tokens))[a], Treasury, recipient, amount).Ok?
      ensures States(tokens) == if r.Ok?
        then old(States(tokens))[a := T.Transfer(old(States(tokens))[a], Treasury, recipient, amount).value]
        else old(States(tokens))
    {
      if a !in tokens {
        return Trap;
      }
      ghost var s := States(tokens);
      r := tokens[a].Transfer(Treasury, recipient, amount);
      forall b | b in tokens && b != a ensures tokens[b].Valid() && States(tokens)[b] == s[b] {
      }
      OneEntry(s, States(tokens), a);
    }
  }
}
