/** What each call to the token contract asks and what it leaves behind, written out in the terms of the stored
    balances, allowances and delegations, without the functions that define the calls. */
module TokenCalls {
  import opened Host
  import opened TokenSpec
  import opened Delegation
  import G = GovernanceSpec
  import GovernanceCalls

  /** The balances after `amount` went from one address to another, net nothing if they are the same. */
  ghost predicate Moved(t: Token, t': Token, from: Address, to: Address, amount: int) {
    && t'.balances.Keys == t.balances.Keys + (if from == to then {} else {from, to})
    && forall a :: t'.Balance(a) ==
         t.Balance(a) + (if a == to then amount else 0) - (if a == from then amount else 0)
  }

  /** The recipient's balance can take the amount, unless it stays where it is. */
  predicate CanReceive(t: Token, from: Address, to: Address, amount: int) {
    from == to || t.Balance(to) + amount <= I128_MAX
  }

  lemma MoveIs(t: Token, from: Address, to: Address, amount: i128)
    requires 0 < amount <= t.Balance(from)
    ensures var r := Move(t, from, to, amount);
      && (r.Ok? <==> CanReceive(t, from, to, amount))
      && (r.Ok? ==> r.value == t.(balances := r.value.balances) && Moved(t, r.value, from, to, amount))
  {
  }

  lemma TransferMoves(t: Token, ledger: u32, caller: Address, to: Address, amount: i128)
    ensures var r := Step(t, ledger, caller, TransferCall(to, amount));
      && (r.Ok? <==> !t.paused && 0 < amount <= t.Balance(caller) && CanReceive(t, caller, to, amount))
      && (r.Ok? ==> r.value == t.(balances := r.value.balances) && Moved(t, r.value, caller, to, amount))
  {
    if 0 < amount <= t.Balance(caller) { MoveIs(t, caller, to, amount); }
  }

  /** The owner's record for the spender covers the amount at this ledger. */
  predicate Covers(t: Token, owner: Address, spender: Address, ledger: u32, amount: int) {
    && (owner, spender) in t.allowances
    && ledger <= t.allowances[(owner, spender)].expiryLedger && amount <= t.allowances[(owner, spender)].amount
  }

  predicate MaySpend(t: Token, owner: Address, spender: Address, ledger: u32, amount: int) {
    !t.paused && 0 < amount <= t.Balance(owner) && Covers(t, owner, spender, ledger, amount)
  }

  lemma TransferFromComesTo(t: Token, ledger: u32, caller: Address, from: Address, to: Address, amount: i128)
    ensures var r := Step(t, ledger, caller, TransferFromCall(from, to, amount));
      if MaySpend(t, from, caller, ledger, amount)
      then r == Spend(t, caller, t.allowances[(from, caller)], from, to, amount) else !r.Ok?
  {
  }

  lemma SpendIs(t: Token, spender: Address, record: Allowance, from: Address, to: Address, amount: i128)
    requires 0 < amount <= t.Balance(from) && amount <= record.amount
    ensures var (r, rest) := (Spend(t, spender, record, from, to, amount), record.(amount := record.amount - amount));
      && (r.Ok? <==> CanReceive(t, from, to, amount))
      && (r.Ok? ==>
            && r.value == t.(balances := r.value.balances, allowances := t.allowances[(from, spender) := rest])
            && Moved(t, r.value, from, to, amount))
  {
    var rest := record.(amount := record.amount - amount);
    MoveIs(t.(allowances := t.allowances[(from, spender) := rest]), from, to, amount);
  }

  /** A spender moves the owner's tokens within the allowance, which falls by the amount and keeps its expiry. */
  lemma TransferFromSpendsAllowance(t: Token, ledger: u32, caller: Address, from: Address, to: Address, amount: i128)
    ensures var r := Step(t, ledger, caller, TransferFromCall(from, to, amount));
      && (r.Ok? <==> MaySpend(t, from, caller, ledger, amount) && CanReceive(t, from, to, amount))
      && (r.Ok? ==>
            && MaySpend(t, from, caller, ledger, amount)
            && var record := t.allowances[(from, caller)];
               && r.value == t.(balances := r.value.balances,
                                allowances := t.allowances[(from, caller) := record.(amount := record.amount - amount)])
               && Moved(t, r.value, from, to, amount))
  {
    TransferFromComesTo(t, ledger, caller, from, to, amount);
    if MaySpend(t, from, caller, ledger, amount) {
      SpendIs(t, caller, t.allowances[(from, caller)], from, to, amount);
    }
  }

  lemma ApproveStoresRecord(t: Token, ledger: u32, caller: Address, spender: Address, amount: i128, expiry: u32)
    ensures var r := Step(t, ledger, caller, ApproveCall(spender, amount, expiry));
      && (r.Ok? <==> amount >= 0 && expiry > ledger)
      && (r.Ok? ==> r.value == t.(allowances := t.allowances[(caller, spender) := Allowance(amount, expiry)]))
  {
  }

  /** Only the admin mints. */
  lemma MintIssues(t: Token, ledger: u32, caller: Address, to: Address, amount: i128)
    ensures var r := Step(t, ledger, caller, MintCall(to, amount));
      && (r.Ok? <==>
            && t.admin == Some(caller) && !t.paused && amount > 0
            && t.Supply() + amount <= I128_MAX && t.Balance(to) + amount <= I128_MAX)
      && (r.Ok? ==>
            && t.Balance(to) + amount <= I128_MAX
            && r.value == t.(balances := t.balances[to := t.Balance(to) + amount]))
  {
  }

  /** Only the admin burns what others hold, and not while the token is paused. */
  lemma BurnIsTheAdmins(t: Token, ledger: u32, caller: Address, from: Address, amount: i128)
    requires Wf(t) && NonNegative(t)
    ensures var r := Step(t, ledger, caller, BurnCall(from, amount));
      && (r.Ok? <==> t.admin == Some(caller) && !t.paused && 0 < amount <= t.Balance(from))
      && (r.Ok? ==>
            && 0 < amount <= t.Balance(from)
            && r.value == t.(balances := t.balances[from := t.Balance(from) - amount]))
  {
    BalanceWithinSupply(t, from);
  }

  /** Everybody burns its own, paused or not. */
  lemma BurnSelfDestroys(t: Token, ledger: u32, caller: Address, amount: i128)
    requires Wf(t) && NonNegative(t)
    ensures var r := Step(t, ledger, caller, BurnSelfCall(amount));
      && (r.Ok? <==> 0 < amount <= t.Balance(caller))
      && (r.Ok? ==>
            && 0 < amount <= t.Balance(caller)
            && r.value == t.(balances := t.balances[caller := t.Balance(caller) - amount]))
  {
    BalanceWithinSupply(t, caller);
  }

  /** The administrative calls: set up once; hand the role over in two steps; pause and resume. */
  lemma RolesTakeEffect(t: Token, ledger: u32, caller: Address, call: TokenCall)
    requires
      || call.InitializeCall? || call.ProposeAdminCall? || call.AcceptAdminCall?
      || call.PauseCall? || call.UnpauseCall?
    ensures var r := Step(t, ledger, caller, call);
      && (r.Ok? <==> match call
            case InitializeCall(_, _, _) => !t.initialized
            case AcceptAdminCall => t.pendingAdmin == Some(caller) && t.admin.Some?
            case PauseCall => t.admin == Some(caller) && !t.paused
            case UnpauseCall => t.admin == Some(caller) && t.paused
            case _ => t.admin == Some(caller))
      && (r.Ok? ==> match call
            case InitializeCall(owner, supply, metadata) =>
              r.value == t.(metadata := metadata, initialized := true, admin := Some(owner),
                            balances := t.balances[owner := supply])
            case ProposeAdminCall(newAdmin) => r.value == t.(pendingAdmin := Some(newAdmin))
            case AcceptAdminCall => r.value == t.(admin := Some(caller), pendingAdmin := None)
            case PauseCall => r.value == t.(paused := true)
            case _ => r.value == t.(paused := false))
  {
  }

  // ------------------------------------------------------------------ delegation

  /** An owner who has not delegated names one other address, and nothing else changes. */
  lemma DelegateNamesAnother(t: Token, ledger: u32, caller: Address, to: Address)
    ensures var r := Step(t, ledger, caller, DelegateCall(to));
      && (r.Ok? <==> caller != to && caller !in t.delegations)
      && (r.Ok? ==>
            && r.value == t.(delegations := r.value.delegations)
            && caller in r.value.delegations && r.value.delegations[caller] == to
            && r.value.delegations - {caller} == t.delegations)
  {
  }

  lemma UndelegateForgets(t: Token, ledger: u32, caller: Address)
    ensures var r := Step(t, ledger, caller, UndelegateCall);
      && (r.Ok? <==> caller in t.delegations)
      && (r.Ok? ==>
            && r.value == t.(delegations := r.value.delegations)
            && caller !in r.value.delegations
            && forall a :: a != caller ==>
                 (a in r.value.delegations <==> a in t.delegations)
                 && (a in t.delegations ==> r.value.delegations[a] == t.delegations[a]))
  {
  }

  /** Undelegating takes a delegation back completely. */
  lemma UndelegateUndoesDelegate(t: Token, ledger: u32, later: u32, caller: Address, to: Address)
    requires Step(t, ledger, caller, DelegateCall(to)).Ok?
    ensures Step(Step(t, ledger, caller, DelegateCall(to)).value, later, caller, UndelegateCall) == Ok(t)
  {
    DelegateNamesAnother(t, ledger, caller, to);
    UndelegateForgets(Step(t, ledger, caller, DelegateCall(to)).value, later, caller);
  }

  /** After a delegation the owner counts for the delegate: listed by it, the owner's balance adds to the delegate's. */
  lemma DelegateGainsWeight(t: Token, ledger: u32, caller: Address, to: Address)
    requires Wf(t) && NonNegative(t) && Step(t, ledger, caller, DelegateCall(to)).Ok?
    ensures var t' := Step(t, ledger, caller, DelegateCall(to)).value;
      && Genuine(t', to, caller)
      && ClaimedWeight(t', Claim(to, [caller])) == t.Balance(to) + t.Balance(caller)
  {
    DelegateNamesAnother(t, ledger, caller, to);
    TwoBalancesWithinSupply(t, to, caller);
    BalanceWithinSupply(t, caller);
    var t' := Step(t, ledger, caller, DelegateCall(to)).value;
    assert Accumulated(t', to, [caller], 0) == t.Balance(to);
  }

  /** And can no longer vote itself. */
  lemma DelegatorCannotCast(g: G.Gov, env: Env, tokens: map<Address, Token>, ledger: u32, caller: Address, to: Address,
                            id: u64, vote: G.Vote)
    requires g.config.votingToken.Some? && g.config.votingToken.value in tokens
    requires Step(tokens[g.config.votingToken.value], ledger, caller, DelegateCall(to)).Ok?
    ensures var a := g.config.votingToken.value;
      var after := tokens[a := Step(tokens[a], ledger, caller, DelegateCall(to)).value];
      !G.Step(g, env, after, false, caller, G.On(id, G.CastCall(vote))).Ok?
  {
    var a := g.config.votingToken.value;
    DelegateNamesAnother(tokens[a], ledger, caller, to);
    GovernanceCalls.CastRecordsBalance(g, env, tokens[a := Step(tokens[a], ledger, caller, DelegateCall(to)).value],
                                       caller, id, vote);
  }

  // ------------------------------------------------------------------ refusals

  predicate NotForCaller(t: Token, caller: Address, e: Error) {
    e == NotAdmin && t.admin.Some? && t.admin != Some(caller)
  }

  predicate BadAmount(t: Token, from: Address, amount: int, e: Error) {
    (e == InvalidAmount && amount <= 0) || (e == InsufficientBalance && t.Balance(from) < amount)
  }

  /** What each error code says of the state, the caller and the arguments. */
  predicate Grounds(t: Token, ledger: u32, caller: Address, call: TokenCall, e: Error) {
    match call
    case InitializeCall(_, _, _) => e == AlreadyInitialized && t.initialized
    case TransferCall(_, amount) => (e == ContractPaused && t.paused) || BadAmount(t, caller, amount, e)
    case TransferFromCall(from, _, amount) =>
      || (e == ContractPaused && t.paused) || BadAmount(t, from, amount, e)
      || (e == AllowanceExceeded && !Covers(t, from, caller, ledger, amount))
    case ApproveCall(_, amount, expiry) =>
      (e == InvalidAmount && amount < 0) || (e == InvalidExpiry && expiry <= ledger)
    case MintCall(_, amount) =>
      NotForCaller(t, caller, e) || (e == ContractPaused && t.paused) || (e == InvalidAmount && amount <= 0)
    case BurnCall(from, amount) =>
      NotForCaller(t, caller, e) || (e == ContractPaused && t.paused) || BadAmount(t, from, amount, e)
    case BurnSelfCall(amount) => BadAmount(t, caller, amount, e)
    case DelegateCall(to) =>
      (e == CannotDelegateSelf && caller == to) || (e == AlreadyDelegating && caller in t.delegations)
    case UndelegateCall => e == NotDelegating && caller !in t.delegations
    case ProposeAdminCall(_) => NotForCaller(t, caller, e)
    case AcceptAdminCall =>
      || (e == NoPendingAdmin && t.pendingAdmin.None?)
      || (e == NotPendingAdmin && t.pendingAdmin.Some? && t.pendingAdmin != Some(caller))
    case PauseCall => NotForCaller(t, caller, e) || (e == ContractPaused && t.paused)
    case UnpauseCall => NotForCaller(t, caller, e) || (e == NotPaused && !t.paused)
  }

  lemma TransferRefusalIsTrue(t: Token, ledger: u32, caller: Address, to: Address, amount: i128, e: Error)
    requires Step(t, ledger, caller, TransferCall(to, amount)) == Err(e)
    ensures Grounds(t, ledger, caller, TransferCall(to, amount), e)
  {
  }

  lemma TransferFromRefusalIsTrue(t: Token, ledger: u32, caller: Address, from: Address, to: Address, amount: i128,
                                  e: Error)
    requires Step(t, ledger, caller, TransferFromCall(from, to, amount)) == Err(e)
    ensures Grounds(t, ledger, caller, TransferFromCall(from, to, amount), e)
  {
  }

  /** Every error code is true: it names a condition of the call that really failed. */
  lemma RefusalsAreTrue(t: Token, ledger: u32, caller: Address, call: TokenCall, e: Error)
    requires Step(t, ledger, caller, call) == Err(e)
    ensures Grounds(t, ledger, caller, call, e)
  {
    match call
    case TransferCall(to, amount) => TransferRefusalIsTrue(t, ledger, caller, to, amount, e);
    case TransferFromCall(from, to, amount) => TransferFromRefusalIsTrue(t, ledger, caller, from, to, amount, e);
    case _ =>
  }
}
