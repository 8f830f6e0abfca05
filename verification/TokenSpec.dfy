/** What the token contract promises, with the supply counter left out: the supply IS the sum of
    the balances. `TokenContract` keeps the counter and is proved to behave the same. */
module TokenSpec {
  import opened Host
  import opened MapSum

  datatype Allowance = Allowance(amount: i128, expiryLedger: u32)

  function Amount(x: i128): int { x }

  datatype Metadata = Metadata(name: string, symbol: string, decimals: u32)

  datatype Token = Token(
    metadata: Metadata,
    initialized: bool,
    admin: Option<Address>,
    pendingAdmin: Option<Address>,
    paused: bool,
    balances: map<Address, i128>,
    allowances: map<(Address, Address), Allowance>,
    delegations: map<Address, Address>)
  {
    function Balance(a: Address): i128 {
      if a in balances then balances[a] else 0
    }

    ghost function Supply(): int {
      Sum(balances, Amount)
    }

    /** The allowance record as a spender sees it: absent when expired or used up. */
    function Spendable(owner: Address, spender: Address, ledger: u32): Option<Allowance> {
      if (owner, spender) in allowances
         && ledger <= allowances[(owner, spender)].expiryLedger
         && allowances[(owner, spender)].amount > 0
      then Some(allowances[(owner, spender)]) else None
    }

    function AsAdmin(caller: Address): Guard {
      if admin.None? then Panic else Need(admin == Some(caller), NotAdmin)
    }
  }

  datatype TokenCall =
    | InitializeCall(owner: Address, initialSupply: i128, metadata: Metadata)
    | TransferCall(to: Address, amount: i128)
    | TransferFromCall(from: Address, to: Address, amount: i128)
    | ApproveCall(spender: Address, amount: i128, expiryLedger: u32)
    | MintCall(to: Address, amount: i128)
    | BurnCall(from: Address, amount: i128)
    | BurnSelfCall(amount: i128)
    | DelegateCall(to: Address)
    | UndelegateCall
    | ProposeAdminCall(newAdmin: Address)
    | AcceptAdminCall
    | PauseCall
    | UnpauseCall

  const DEPLOYED := Token(Metadata("", "", 0), false, None, None, false, map[], map[], map[])

  function Initialize(t: Token, owner: Address, supply: i128, metadata: Metadata): Outcome<Token> {
    var check := Need(!t.initialized, AlreadyInitialized);
    :- check;
    Ok(t.(metadata := metadata, initialized := true, admin := Some(owner), balances := t.balances[owner := supply]))
  }

  /** Take from one balance, then add to another as it stands after the taking. */
  function Move(t: Token, from: Address, to: Address, amount: i128): Outcome<Token>
    requires 0 < amount <= t.Balance(from)
  {
    var taken := t.(balances := t.balances[from := t.Balance(from) - amount]);
    :- Unless(taken.Balance(to) + amount > I128_MAX);
    Ok(taken.(balances := taken.balances[to := taken.Balance(to) + amount]))
  }

  function Transfer(t: Token, from: Address, to: Address, amount: i128): Outcome<Token> {
    var check := Need(!t.paused, ContractPaused);
    :- check;
    :- Need(amount > 0, InvalidAmount);
    :- Need(t.Balance(from) >= amount, InsufficientBalance);
    if from == to then Ok(t) else Move(t, from, to, amount)
  }

  /** The writes of transfer_from: the rest of the allowance, then the balances. */
  function Spend(t: Token, spender: Address, record: Allowance, from: Address, to: Address,
                 amount: i128): Outcome<Token>
    requires 0 < amount <= t.Balance(from) && amount <= record.amount
  {
    Move(t.(allowances := t.allowances[(from, spender) := record.(amount := record.amount - amount)]), from, to, amount)
  }

  /** Spending ends the way its move ends, and a failed one leaves the allowance too. */
  lemma SpendEnds(t: Token, spender: Address, record: Allowance, from: Address, to: Address, amount: i128,
                  r: Outcome<()>, moved: Token)
    requires 0 < amount <= t.Balance(from) && amount <= record.amount
    requires var spent := t.(allowances := t.allowances[(from, spender) := record.(amount := record.amount - amount)]);
      Matches(Move(spent, from, to, amount), r, spent, moved)
    ensures Matches(Spend(t, spender, record, from, to, amount), r, t, if r.Ok? then moved else t)
    ensures !r.Ok? ==> moved.(allowances := t.allowances) == t
  {
  }

  function TransferFrom(t: Token, ledger: u32, spender: Address, from: Address, to: Address,
                        amount: i128): Outcome<Token> {
    var check := Need(!t.paused, ContractPaused);
    :- check;
    :- Need(amount > 0, InvalidAmount);
    var record := t.Spendable(from, spender, ledger);
    :- Need(record.Some? && record.value.amount >= amount, AllowanceExceeded);
    :- Need(t.Balance(from) >= amount, InsufficientBalance);
    Spend(t, spender, record.value, from, to, amount)
  }

  function Approve(t: Token, ledger: u32, owner: Address, spender: Address, amount: i128, expiry: u32): Outcome<Token> {
    var check := Need(amount >= 0, InvalidAmount);
    :- check;
    :- Need(expiry > ledger, InvalidExpiry);
    Ok(t.(allowances := t.allowances[(owner, spender) := Allowance(amount, expiry)]))
  }

  /** New tokens, if supply and balance can hold them. */
  ghost function Issue(t: Token, to: Address, amount: i128): Outcome<Token>
    requires amount > 0
  {
    var check := Unless(t.Supply() + amount > I128_MAX || t.Balance(to) + amount > I128_MAX);
    :- check;
    Ok(t.(balances := t.balances[to := t.Balance(to) + amount]))
  }

  ghost function Mint(t: Token, caller: Address, to: Address, amount: i128): Outcome<Token> {
    var check := t.AsAdmin(caller);
    :- check;
    :- Need(!t.paused, ContractPaused);
    :- Need(amount > 0, InvalidAmount);
    Issue(t, to, amount)
  }

  ghost function Destroy(t: Token, from: Address, amount: i128): Outcome<Token> {
    var check := Need(amount > 0, InvalidAmount);
    :- check;
    :- Need(t.Balance(from) >= amount, InsufficientBalance);
    :- Unless(t.Supply() - amount < I128_MIN);
    Ok(t.(balances := t.balances[from := t.Balance(from) - amount]))
  }

  ghost function Burn(t: Token, caller: Address, from: Address, amount: i128): Outcome<Token> {
    var check := t.AsAdmin(caller);
    :- check;
    :- Need(!t.paused, ContractPaused);
    Destroy(t, from, amount)
  }

  function Delegate(t: Token, owner: Address, to: Address): Outcome<Token> {
    var check := Need(owner != to, CannotDelegateSelf);
    :- check;
    :- Need(owner !in t.delegations, AlreadyDelegating);
    Ok(t.(delegations := t.delegations[owner := to]))
  }

  function Undelegate(t: Token, owner: Address): Outcome<Token> {
    var check := Need(owner in t.delegations, NotDelegating);
    :- check;
    Ok(t.(delegations := t.delegations - {owner}))
  }

  function ProposeAdmin(t: Token, caller: Address, newAdmin: Address): Outcome<Token> {
    var check := t.AsAdmin(caller);
    :- check;
    Ok(t.(pendingAdmin := Some(newAdmin)))
  }

  function AcceptAdmin(t: Token, caller: Address): Outcome<Token> {
    var check := Need(t.pendingAdmin.Some?, NoPendingAdmin);
    :- check;
    :- Need(t.pendingAdmin == Some(caller), NotPendingAdmin);
    :- Unless(t.admin.None?);
    Ok(t.(admin := Some(caller), pendingAdmin := None))
  }

  function Pause(t: Token, caller: Address): Outcome<Token> {
    var check := t.AsAdmin(caller);
    :- check;
    :- Need(!t.paused, ContractPaused);
    Ok(t.(paused := true))
  }

  function Unpause(t: Token, caller: Address): Outcome<Token> {
    var check := t.AsAdmin(caller);
    :- check;
    :- Need(t.paused, NotPaused);
    Ok(t.(paused := false))
  }

  ghost function Step(t: Token, ledger: u32, caller: Address, call: TokenCall): Outcome<Token> {
    match call
    case InitializeCall(owner, supply, metadata) => Initialize(t, owner, supply, metadata)
    case TransferCall(to, amount) => Transfer(t, caller, to, amount)
    case TransferFromCall(from, to, amount) => TransferFrom(t, ledger, caller, from, to, amount)
    case ApproveCall(spender, amount, expiry) => Approve(t, ledger, caller, spender, amount, expiry)
    case MintCall(to, amount) => Mint(t, caller, to, amount)
    case BurnCall(from, amount) => Burn(t, caller, from, amount)
    case BurnSelfCall(amount) => Destroy(t, caller, amount)
    case DelegateCall(to) => Delegate(t, caller, to)
    case UndelegateCall => Undelegate(t, caller)
    case ProposeAdminCall(newAdmin) => ProposeAdmin(t, caller, newAdmin)
    case AcceptAdminCall => AcceptAdmin(t, caller)
    case PauseCall => Pause(t, caller)
    case UnpauseCall => Unpause(t, caller)
  }

  /** A call to the token contract at address a, among all those of the ledger. */
  ghost function StepIn(tokens: map<Address, Token>, a: Address, ledger: u32, caller: Address,
                        call: TokenCall): Outcome<map<Address, Token>> {
    var check := Unless(a !in tokens);
    :- check;
    var t :- Step(tokens[a], ledger, caller, call);
    Ok(tokens[a := t])
  }

  /** The call ends the way it ends on that token. */
  lemma StepInEnds(tokens: map<Address, Token>, a: Address, ledger: u32, caller: Address, call: TokenCall,
                   r: Outcome<()>, t: Token)
    requires a in tokens && Matches(Step(tokens[a], ledger, caller, call), r, tokens[a], t)
    ensures Matches(StepIn(tokens, a, ledger, caller, call), r, tokens, tokens[a := t])
  {
    assert tokens[a := tokens[a]] == tokens;
  }

  // ------------------------------------------------------------------ invariants

  ghost predicate Wf(t: Token) {
    && (t.initialized <==> t.admin.Some?)
    && (!t.initialized ==> t.balances == map[] && t.pendingAdmin == None)
    && I128_MIN <= t.Supply() <= I128_MAX
  }

  predicate NonNegative(t: Token) {
    forall a :: a in t.balances ==> t.balances[a] >= 0
  }

  /** What a successful call adds to the supply. */
  function Issued(call: TokenCall): int {
    match call
    case InitializeCall(_, supply, _) => supply
    case MintCall(_, amount) => amount
    case BurnCall(_, amount) => -(amount as int)
    case BurnSelfCall(amount) => -(amount as int)
    case _ => 0
  }

  lemma PutBalance(t: Token, a: Address, x: i128)
    ensures t.(balances := t.balances[a := x]).Supply() == t.Supply() - t.Balance(a) + x
  {
    Put(t.balances, a, x, Amount);
  }

  /** Moving tokens conserves the supply, `from == to` included. */
  lemma MoveConserves(t: Token, from: Address, to: Address, amount: i128)
    requires 0 < amount <= t.Balance(from)
    ensures var r := Move(t, from, to, amount);
      r.Ok? ==>
        && r.value.Supply() == t.Supply()
        && r.value == t.(balances := r.value.balances)
        && forall a :: r.value.Balance(a) ==
             t.Balance(a) + (if a == to then amount else 0) - (if a == from then amount else 0)
  {
    PutBalance(t, from, t.Balance(from) - amount);
    var taken := t.(balances := t.balances[from := t.Balance(from) - amount]);
    if taken.Balance(to) + amount <= I128_MAX {
      PutBalance(taken, to, taken.Balance(to) + amount);
    }
  }

  /** The two writes of a transfer, on the balances alone. */
  lemma MoveEnds(t: Token, from: Address, to: Address, amount: i128)
    requires Wf(t) && 0 < amount <= t.Balance(from)
    ensures var taken := t.balances[from := t.balances[from] - amount];
      var held := if to in taken then taken[to] else 0;
      if held + amount > I128_MAX then Move(t, from, to, amount) == Trap
      else
        var moved := t.(balances := taken[to := held + amount]);
        Move(t, from, to, amount) == Ok(moved) && Wf(moved) && moved.Supply() == t.Supply()
  {
    MoveConserves(t, from, to, amount);
  }

  lemma TransferConserves(t: Token, from: Address, to: Address, amount: i128)
    requires Wf(t) && Transfer(t, from, to, amount).Ok?
    ensures var t' := Transfer(t, from, to, amount).value;
      Wf(t') && t'.Supply() == t.Supply()
  {
    if from != to { MoveConserves(t, from, to, amount); }
  }

  lemma TransferFromConserves(t: Token, ledger: u32, spender: Address, from: Address, to: Address, amount: i128)
    requires Wf(t) && TransferFrom(t, ledger, spender, from, to, amount).Ok?
    ensures var t' := TransferFrom(t, ledger, spender, from, to, amount).value;
      Wf(t') && t'.Supply() == t.Supply()
  {
    var record := t.Spendable(from, spender, ledger).value;
    var rest := record.(amount := record.amount - amount);
    MoveConserves(t.(allowances := t.allowances[(from, spender) := rest]), from, to, amount);
  }

  lemma IssuanceAdds(t: Token, ledger: u32, caller: Address, call: TokenCall)
    requires call.InitializeCall? || call.MintCall? || call.BurnCall? || call.BurnSelfCall?
    requires Wf(t) && Step(t, ledger, caller, call).Ok?
    ensures var t' := Step(t, ledger, caller, call).value;
      Wf(t') && t'.Supply() == t.Supply() + Issued(call)
  {
    match call
    case InitializeCall(owner, supply, _) => PutBalance(t, owner, supply);
    case MintCall(to, amount) => PutBalance(t, to, t.Balance(to) + amount);
    case BurnCall(from, amount) => PutBalance(t, from, t.Balance(from) - amount);
    case BurnSelfCall(amount) => PutBalance(t, caller, t.Balance(caller) - amount);
  }

  /** Conservation: every call changes the supply by exactly what it issues, so transfers of
      either kind conserve it; well-formedness is kept. */
  lemma StepConserves(t: Token, ledger: u32, caller: Address, call: TokenCall)
    requires Wf(t) && Step(t, ledger, caller, call).Ok?
    ensures var t' := Step(t, ledger, caller, call).value;
      Wf(t') && t'.Supply() == t.Supply() + Issued(call)
  {
    match call
    case TransferCall(to, amount) => TransferConserves(t, caller, to, amount);
    case TransferFromCall(from, to, amount) => TransferFromConserves(t, ledger, caller, from, to, amount);
    case InitializeCall(_, _, _) => IssuanceAdds(t, ledger, caller, call);
    case MintCall(_, _) => IssuanceAdds(t, ledger, caller, call);
    case BurnCall(_, _) => IssuanceAdds(t, ledger, caller, call);
    case BurnSelfCall(_) => IssuanceAdds(t, ledger, caller, call);
    case _ =>
  }

  lemma MoveKeepsNonNegative(t: Token, from: Address, to: Address, amount: i128)
    requires NonNegative(t) && 0 < amount <= t.Balance(from) && Move(t, from, to, amount).Ok?
    ensures NonNegative(Move(t, from, to, amount).value)
  {
  }

  /** What a successful transfer_from comes down to. */
  lemma TransferFromSpends(t: Token, ledger: u32, spender: Address, from: Address, to: Address, amount: i128)
    requires TransferFrom(t, ledger, spender, from, to, amount).Ok?
    ensures var record := t.Spendable(from, spender, ledger);
      && record.Some? && 0 < amount <= t.Balance(from) && amount <= record.value.amount
      && TransferFrom(t, ledger, spender, from, to, amount) == Spend(t, spender, record.value, from, to, amount)
  {
  }

  lemma SpendKeepsNonNegative(t: Token, spender: Address, record: Allowance, from: Address, to: Address, amount: i128)
    requires NonNegative(t) && 0 < amount <= t.Balance(from) && amount <= record.amount
    requires Spend(t, spender, record, from, to, amount).Ok?
    ensures NonNegative(Spend(t, spender, record, from, to, amount).value)
  {
    var rest := record.(amount := record.amount - amount);
    MoveKeepsNonNegative(t.(allowances := t.allowances[(from, spender) := rest]), from, to, amount);
  }

  lemma TransferFromKeepsNonNegative(t: Token, ledger: u32, spender: Address, from: Address, to: Address, amount: i128)
    requires NonNegative(t) && TransferFrom(t, ledger, spender, from, to, amount).Ok?
    ensures NonNegative(TransferFrom(t, ledger, spender, from, to, amount).value)
  {
    TransferFromSpends(t, ledger, spender, from, to, amount);
    SpendKeepsNonNegative(t, spender, t.Spendable(from, spender, ledger).value, from, to, amount);
  }

  lemma IssuanceKeepsNonNegative(t: Token, ledger: u32, caller: Address, call: TokenCall)
    requires call.MintCall? || call.BurnCall? || call.BurnSelfCall?
    requires NonNegative(t) && Step(t, ledger, caller, call).Ok?
    ensures NonNegative(Step(t, ledger, caller, call).value)
  {
  }

  /** The one call that can make a balance negative is an initialization with a negative supply,
      which the contract does not refuse. */
  lemma StepKeepsNonNegative(t: Token, ledger: u32, caller: Address, call: TokenCall)
    requires Wf(t) && NonNegative(t) && Step(t, ledger, caller, call).Ok?
    ensures NonNegative(Step(t, ledger, caller, call).value) <==> (call.InitializeCall? ==> call.initialSupply >= 0)
  {
    match call
    case InitializeCall(owner, supply, _) =>
      assert Step(t, ledger, caller, call).value.balances[owner] == supply;
    case TransferCall(to, amount) =>
      if caller != to { MoveKeepsNonNegative(t, caller, to, amount); }
    case TransferFromCall(from, to, amount) => TransferFromKeepsNonNegative(t, ledger, caller, from, to, amount);
    case MintCall(_, _) => IssuanceKeepsNonNegative(t, ledger, caller, call);
    case BurnCall(_, _) => IssuanceKeepsNonNegative(t, ledger, caller, call);
    case BurnSelfCall(_) => IssuanceKeepsNonNegative(t, ledger, caller, call);
    case _ =>
  }

  lemma BalanceWithinSupply(t: Token, a: Address)
    requires NonNegative(t)
    ensures 0 <= t.Balance(a) <= t.Supply()
  {
    AtLeastEach(t.balances, Amount);
    if a in t.balances {
      assert Amount(t.balances[a]) <= Sum(t.balances, Amount);
    }
  }

  lemma TwoBalancesWithinSupply(t: Token, a: Address, b: Address)
    requires NonNegative(t) && a != b
    ensures t.Balance(a) + t.Balance(b) <= t.Supply()
  {
    BalanceWithinSupply(t, a);
    BalanceWithinSupply(t, b);
    if a in t.balances && b in t.balances {
      AtLeastTwo(t.balances, a, b, Amount);
    }
  }

  lemma MoveNeverOverflows(t: Token, from: Address, to: Address, amount: i128)
    requires Wf(t) && NonNegative(t) && 0 < amount <= t.Balance(from)
    ensures Move(t, from, to, amount).Ok?
  {
    if from != to { TwoBalancesWithinSupply(t, from, to); }
  }

  predicate AdminOnly(call: TokenCall) {
    call.MintCall? || call.BurnCall? || call.ProposeAdminCall? || call.PauseCall? || call.UnpauseCall?
  }

  ghost predicate MintOverflows(t: Token, caller: Address, call: TokenCall) {
    call.MintCall? && t.admin == Some(caller) && !t.paused && call.amount > 0 && t.Supply() + call.amount > I128_MAX
  }

  /** Overflow freedom: with non-negative balances no transfer, approval or burn can overflow, and a
      mint overflows exactly when the supply would. The only other panic is reading an unset admin. */
  lemma PanicsExactlyWhen(t: Token, ledger: u32, caller: Address, call: TokenCall)
    requires Wf(t) && NonNegative(t)
    ensures Step(t, ledger, caller, call).Trap? <==>
      (AdminOnly(call) && t.admin == None) || MintOverflows(t, caller, call)
  {
    match call
    case TransferCall(to, amount) =>
      if 0 < amount <= t.Balance(caller) { MoveNeverOverflows(t, caller, to, amount); }
    case TransferFromCall(from, to, amount) =>
      TransferFromNeverPanics(t, ledger, caller, from, to, amount);
    case MintCall(to, amount) => BalanceWithinSupply(t, to);
    case BurnCall(from, amount) => BalanceWithinSupply(t, from);
    case BurnSelfCall(amount) => BalanceWithinSupply(t, caller);
    case _ =>
  }

  lemma SpendNeverPanics(t: Token, spender: Address, record: Allowance, from: Address, to: Address, amount: i128)
    requires Wf(t) && NonNegative(t) && 0 < amount <= t.Balance(from) && amount <= record.amount
    ensures Spend(t, spender, record, from, to, amount).Ok?
  {
    MoveNeverOverflows(t, from, to, amount);
  }

  /** transfer_from can only panic in its writes. */
  lemma PanicsInSpend(t: Token, ledger: u32, spender: Address, from: Address, to: Address, amount: i128)
    requires TransferFrom(t, ledger, spender, from, to, amount).Trap?
    ensures var record := t.Spendable(from, spender, ledger);
      && record.Some? && 0 < amount <= t.Balance(from) && amount <= record.value.amount
      && Spend(t, spender, record.value, from, to, amount).Trap?
  {
  }

  lemma TransferFromNeverPanics(t: Token, ledger: u32, spender: Address, from: Address, to: Address, amount: i128)
    requires Wf(t) && NonNegative(t)
    ensures !TransferFrom(t, ledger, spender, from, to, amount).Trap?
  {
    if TransferFrom(t, ledger, spender, from, to, amount).Trap? {
      PanicsInSpend(t, ledger, spender, from, to, amount);
      SpendNeverPanics(t, spender, t.Spendable(from, spender, ledger).value, from, to, amount);
    }
  }
}
