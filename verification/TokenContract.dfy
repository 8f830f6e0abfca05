/** The token contract as it is written: storage entries overwritten one by one, with a running
    total-supply counter. Every entry point is proved to do what `TokenSpec` says, so the counter
    always equals the sum of the balances. */
module TokenContract {
  import opened Host
  import S = TokenSpec
  import D = Delegation

  class TokenContract {
    var name: string
    var symbol: string
    var decimals: u32
    var initialized: bool
    var admin: Option<Address>
    var pendingAdmin: Option<Address>
    var paused: bool
    var totalSupply: i128
    var balances: map<Address, i128>
    var allowances: map<(Address, Address), S.Allowance>
    var delegations: map<Address, Address>

    /** What the storage stands for: everything but the counter. */
    ghost function State(): S.Token
      reads this
    {
      S.Token(S.Metadata(name, symbol, decimals), initialized, admin, pendingAdmin, paused, balances, allowances,
              delegations)
    }

    ghost predicate Valid()
      reads this
    {
      S.Wf(State()) && totalSupply == State().Supply()
    }

    constructor ()
      ensures Valid() && State() == S.DEPLOYED
    {
      name, symbol, decimals := "", "", 0;
      initialized, admin, pendingAdmin, paused := false, None, None, false;
      totalSupply, balances, allowances, delegations := 0, map[], map[], map[];
    }

    function Balance(owner: Address): i128
      reads this
    {
      if owner in balances then balances[owner] else 0
    }

    /** The historical balance the governance contract asks for: the ledger is ignored. */
    function BalanceAt(owner: Address, ledger: u64): (balance: i128)
      reads this
      ensures balance == Balance(owner)
    {
      Balance(owner)
    }

    function GetDelegation(owner: Address): Option<Address>
      reads this
    {
      if owner in delegations then Some(delegations[owner]) else None
    }

    method Initialize(owner: Address, initialSupply: i128, name: string, symbol: string,
                      decimals: u32) returns (r: Outcome<()>)
      requires Valid()
      modifies this
      ensures Valid() && Matches(S.Initialize(old(State()), owner, initialSupply, S.Metadata(name, symbol, decimals)),
                                 r, old(State()), State())
    {
      if initialized {
        return Err(AlreadyInitialized);
      }
      S.PutBalance(State(), owner, initialSupply);
      admin := Some(owner);
      totalSupply := initialSupply;
      balances := balances[owner := initialSupply];
      this.name, this.symbol, this.decimals := name, symbol, decimals;
      initialized := true;
      return Ok(());
    }

    method Transfer(from: Address, to: Address, amount: i128) returns (r: Outcome<()>)
      requires Valid()
      modifies this
      ensures Valid() && Matches(S.Transfer(old(State()), from, to, amount), r, old(State()), State())
    {
      if paused {
        return Err(ContractPaused);
      }
      if amount <= 0 {
        return Err(InvalidAmount);
      }
      var fromBalance := Balance(from);
      if fromBalance < amount {
        return Err(InsufficientBalance);
      }
      if from == to {
        return Ok(());
      }
      r := MoveBalances(from, to, amount);
    }

    /** The two balance writes of a transfer; the second balance is read after the first write. */
    method MoveBalances(from: Address, to: Address, amount: i128) returns (r: Outcome<()>)
      requires Valid() && 0 < amount <= Balance(from)
      modifies this`balances
      ensures Valid() && Matches(S.Move(old(State()), from, to, amount), r, old(State()), State())
    {
      ghost var t := State();
      S.MoveEnds(t, from, to, amount);
      var snapshot := balances;
      var fromBalance := Balance(from);
      balances := balances[from := fromBalance - amount];
      var toBalance := Balance(to);
      if toBalance + amount > I128_MAX {
        balances := snapshot;  // the host drops the first write
        return Trap;
      }
      balances := balances[to := toBalance + amount];
      assert State() == t.(balances := balances);
      return Ok(());
    }

    method TransferFrom(ledger: u32, spender: Address, from: Address, to: Address,
                        amount: i128) returns (r: Outcome<()>)
      requires Valid()
      modifies this
      ensures Valid()
      ensures Matches(S.TransferFrom(old(State()), ledger, spender, from, to, amount), r, old(State()), State())
    {
      if paused {
        return Err(ContractPaused);
      }
      if amount <= 0 {
        return Err(InvalidAmount);
      }
      var record := AllowanceRecord(ledger, from, spender);
      if record.None? || record.value.amount < amount {
        return Err(AllowanceExceeded);
      }
      var fromBalance := Balance(from);
      if fromBalance < amount {
        return Err(InsufficientBalance);
      }
      r := SpendAndMove(spender, record.value, from, to, amount);
    }

    /** The writes of transfer_from: the allowance first, then the balances. */
    method SpendAndMove(spender: Address, record: S.Allowance, from: Address, to: Address,
                        amount: i128) returns (r: Outcome<()>)
      requires Valid() && 0 < amount <= Balance(from) && amount <= record.amount
      modifies this`allowances, this`balances
      ensures Valid()
      ensures Matches(S.Spend(old(State()), spender, record, from, to, amount), r, old(State()), State())
    {
      ghost var t := State();
      var snapshot := allowances;
      var remaining := record.amount - amount;
      allowances := allowances[(from, spender) := S.Allowance(remaining, record.expiryLedger)];
      r := MoveBalances(from, to, amount);
      S.SpendEnds(t, spender, record, from, to, amount, r, State());
      if !r.Ok? {
        allowances := snapshot;  // the host drops the allowance write
      }
    }

    /** Absent when expired or used up. */
    method AllowanceRecord(ledger: u32, owner: Address, spender: Address) returns (record: Option<S.Allowance>)
      ensures record == State().Spendable(owner, spender, ledger)
    {
      if (owner, spender) in allowances {
        var data := allowances[(owner, spender)];
        if ledger > data.expiryLedger || data.amount <= 0 {
          return None;
        }
        return Some(data);
      }
      return None;
    }

    method Approve(ledger: u32, owner: Address, spender: Address, amount: i128,
                   expiryLedger: u32) returns (r: Outcome<()>)
      requires Valid()
      modifies this
      ensures Valid()
      ensures Matches(S.Approve(old(State()), ledger, owner, spender, amount, expiryLedger), r, old(State()), State())
    {
      if amount < 0 {
        return Err(InvalidAmount);
      }
      if expiryLedger <= ledger {
        return Err(InvalidExpiry);
      }
      allowances := allowances[(owner, spender) := S.Allowance(amount, expiryLedger)];
      return Ok(());
    }

    method AssertAdmin(caller: Address) returns (g: Guard)
      ensures g == State().AsAdmin(caller)
    {
      if admin.None? {
        return Panic;
      }
      if admin.value != caller {
        return Fail(NotAdmin);
      }
      return Pass;
    }

    method Mint(caller: Address, to: Address, amount: i128) returns (r: Outcome<()>)
      requires Valid()
      modifies this
      ensures Valid() && Matches(S.Mint(old(State()), caller, to, amount), r, old(State()), State())
    {
      var check := AssertAdmin(caller);
      :- check;
      if paused {
        return Err(ContractPaused);
      }
      if amount <= 0 {
        return Err(InvalidAmount);
      }
      r := Issue(to, amount);
    }

    /** The writes of mint. */
    method Issue(to: Address, amount: i128) returns (r: Outcome<()>)
      requires Valid() && initialized && amount > 0
      modifies this`totalSupply, this`balances
      ensures Valid() && Matches(S.Issue(old(State()), to, amount), r, old(State()), State())
    {
      var balance := Balance(to);
      if totalSupply + amount > I128_MAX || balance + amount > I128_MAX {
        return Trap;
      }
      S.PutBalance(State(), to, balance + amount);
      totalSupply := totalSupply + amount;
      balances := balances[to := balance + amount];
      return Ok(());
    }

    method Burn(caller: Address, from: Address, amount: i128) returns (r: Outcome<()>)
      requires Valid()
      modifies this
      ensures Valid() && Matches(S.Burn(old(State()), caller, from, amount), r, old(State()), State())
    {
      var check := AssertAdmin(caller);
      :- check;
      if paused {
        return Err(ContractPaused);
      }
      r := Destroy(from, amount);
    }

    method BurnSelf(owner: Address, amount: i128) returns (r: Outcome<()>)
      requires Valid()
      modifies this
      ensures Valid() && Matches(S.Destroy(old(State()), owner, amount), r, old(State()), State())
    {
      r := Destroy(owner, amount);
    }

    /** What both burns do once they are permitted. */
    method Destroy(owner: Address, amount: i128) returns (r: Outcome<()>)
      requires Valid()
      modifies this
      ensures Valid() && Matches(S.Destroy(old(State()), owner, amount), r, old(State()), State())
    {
      if amount <= 0 {
        return Err(InvalidAmount);
      }
      var balance := Balance(owner);
      if balance < amount {
        return Err(InsufficientBalance);
      }
      if totalSupply - amount < I128_MIN {
        return Trap;
      }
      ghost var t := State();
      S.PutBalance(t, owner, balance - amount);
      totalSupply := totalSupply - amount;
      balances := balances[owner := balance - amount];
      assert State() == t.(balances := balances);
      return Ok(());
    }

    method Delegate(owner: Address, to: Address) returns (r: Outcome<()>)
      requires Valid()
      modifies this
      ensures Valid() && Matches(S.Delegate(old(State()), owner, to), r, old(State()), State())
    {
      if owner == to {
        return Err(CannotDelegateSelf);
      }
      if owner in delegations {
        return Err(AlreadyDelegating);
      }
      delegations := delegations[owner := to];
      return Ok(());
    }

    method Undelegate(owner: Address) returns (r: Outcome<()>)
      requires Valid()
      modifies this
      ensures Valid() && Matches(S.Undelegate(old(State()), owner), r, old(State()), State())
    {
      if owner !in delegations {
        return Err(NotDelegating);
      }
      delegations := delegations - {owner};
      return Ok(());
    }

    /** The saturating accumulation loop; for a voter who has not delegated and a duplicate-free list it is exact. */
    method GetDelegatedWeight(voter: Address, delegators: seq<Address>) returns (weight: i128)
      requires Valid()
      ensures weight == D.ClaimedWeight(State(), D.Claim(voter, delegators))
      ensures S.NonNegative(State()) && voter !in delegations && D.Distinct(delegators) ==>
        weight == D.Held(State(), D.Backers(State(), voter, delegators, |delegators|))
    {
      weight := Balance(voter);
      for n := 0 to |delegators|
        invariant weight == D.Accumulated(State(), voter, delegators, n)
      {
        var d := delegators[n];
        if d in delegations && delegations[d] == voter {
          weight := D.SaturatingAdd(weight, Balance(d));
        }
      }
      if S.NonNegative(State()) && voter !in delegations && D.Distinct(delegators) {
        D.WeightIsExact(State(), voter, delegators, |delegators|);
      }
    }

    method ProposeAdmin(caller: Address, newAdmin: Address) returns (r: Outcome<()>)
      requires Valid()
      modifies this
      ensures Valid() && Matches(S.ProposeAdmin(old(State()), caller, newAdmin), r, old(State()), State())
    {
      var check := AssertAdmin(caller);
      :- check;
      pendingAdmin := Some(newAdmin);
      return Ok(());
    }

    method AcceptAdmin(caller: Address) returns (r: Outcome<()>)
      requires Valid()
      modifies this
      ensures Valid() && Matches(S.AcceptAdmin(old(State()), caller), r, old(State()), State())
    {
      if pendingAdmin.None? {
        return Err(NoPendingAdmin);
      }
      if caller != pendingAdmin.value {
        return Err(NotPendingAdmin);
      }
      if admin.None? {
        return Trap;
      }
      admin := Some(caller);
      pendingAdmin := None;
      return Ok(());
    }

    method Pause(caller: Address) returns (r: Outcome<()>)
      requires Valid()
      modifies this
      ensures Valid() && Matches(S.Pause(old(State()), caller), r, old(State()), State())
    {
      var check := AssertAdmin(caller);
      :- check;
      if paused {
        return Err(ContractPaused);
      }
      paused := true;
      return Ok(());
    }

    method Unpause(caller: Address) returns (r: Outcome<()>)
      requires Valid()
      modifies this
      ensures Valid() && Matches(S.Unpause(old(State()), caller), r, old(State()), State())
    {
      var check := AssertAdmin(caller);
      :- check;
      if !paused {
        return Err(NotPaused);
      }
      paused := false;
      return Ok(());
    }

    /** Any call, as the host dispatches it. */
    method Invoke(ledger: u32, caller: Address, call: S.TokenCall) returns (r: Outcome<()>)
      requires Valid()
      modifies this
      ensures Valid() && Matches(S.Step(old(State()), ledger, caller, call), r, old(State()), State())
    {
      match call
      case InitializeCall(owner, supply, metadata) =>
        r := Initialize(owner, supply, metadata.name, metadata.symbol, metadata.decimals);
      case TransferCall(to, amount) => r := Transfer(caller, to, amount);
      case TransferFromCall(from, to, amount) => r := TransferFrom(ledger, caller, from, to, amount);
      case ApproveCall(spender, amount, expiry) => r := Approve(ledger, caller, spender, amount, expiry);
      case MintCall(to, amount) => r := Mint(caller, to, amount);
      case BurnCall(from, amount) => r := Burn(caller, from, amount);
      case BurnSelfCall(amount) => r := BurnSelf(caller, amount);
      case DelegateCall(to) => r := Delegate(caller, to);
      case UndelegateCall => r := Undelegate(caller);
      case ProposeAdminCall(newAdmin) => r := ProposeAdmin(caller, newAdmin);
      case AcceptAdminCall => r := AcceptAdmin(caller);
      case PauseCall => r := Pause(caller);
      case UnpauseCall => r := Unpause(caller);
    }
  }

  /** The token contracts of a ledger, by address. */
  type Registry = m: map<Address, TokenContract> | forall a, b :: a in m && b in m && a != b ==> m[a] != m[b]

  ghost predicate AllValid(tokens: Registry)
    reads tokens.Values
  {
    forall a :: a in tokens ==> tokens[a].Valid()
  }

  ghost function States(tokens: Registry): map<Address, S.Token>
    reads tokens.Values
  {
    map a | a in tokens :: tokens[a].State()
  }

  /** Only the state at a differs. */
  lemma OneEntry(s: map<Address, S.Token>, s': map<Address, S.Token>, a: Address)
    requires a in s && s'.Keys == s.Keys && forall b :: b in s && b != a ==> s'[b] == s[b]
    ensures s' == s[a := s'[a]]
  {
  }

  /** A call to the token contract at address a, if there is one. */
  method InvokeAt(tokens: Registry, a: Address, ledger: u32, caller: Address,
                  call: S.TokenCall) returns (r: Outcome<()>)
    requires AllValid(tokens)
    modifies tokens.Values
    ensures AllValid(tokens)
    ensures Matches(S.StepIn(old(States(tokens)), a, ledger, caller, call), r, old(States(tokens)), States(tokens))
  {
    if a !in tokens {
      return Trap;
    }
    ghost var s := States(tokens);
    r := tokens[a].Invoke(ledger, caller, call);
    forall b | b in tokens && b != a ensures tokens[b].Valid() && States(tokens)[b] == s[b] {
    }
    OneEntry(s, States(tokens), a);
    S.StepInEnds(s, a, ledger, caller, call, r, tokens[a].State());
  }
}
