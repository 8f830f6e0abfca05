/** Spending allowances as a budget over whole runs. */
module Allowances {
  import opened Host
  import opened SystemSpec
  import opened SystemLaws
  import T = TokenSpec

  /** The transaction is a transfer_from on token a by the spender out of the owner's balance. */
  predicate Spends(tx: Tx, a: Address, owner: Address, spender: Address) {
    tx.call.ToToken? && tx.call.token == a && tx.caller == spender
    && tx.call.tok.TransferFromCall? && tx.call.tok.from == owner
  }

  predicate Approves(tx: Tx, a: Address, owner: Address, spender: Address) {
    tx.call.ToToken? && tx.call.token == a && tx.caller == owner
    && tx.call.tok.ApproveCall? && tx.call.tok.spender == spender
  }

  /** Transaction n changed something; a failed one never does. */
  predicate Effective(ws: seq<World>, n: nat) {
    n + 1 < |ws| && ws[n + 1] != ws[n]
  }

  /** A spending succeeds exactly when it is effective: it always lowers the allowance. */
  lemma SpendingSucceedsIffEffective(w: World, tx: Tx, a: Address, owner: Address, spender: Address)
    requires Spends(tx, a, owner, spender)
    ensures Submit(w, tx).Ok? <==> Apply(w, tx) != w
  {
    if Submit(w, tx).Ok? {
      SpendingTakes(w.tokens[a], tx.env.sequence, spender, owner, tx.call.tok.to, tx.call.tok.amount);
    }
  }

  /** Total amount spent by successful transfer_from calls between j and k. */
  ghost function Spent(ws: seq<World>, txs: seq<Tx>, j: nat, k: nat, a: Address, owner: Address, spender: Address): int
    requires |ws| == |txs| + 1 && j <= k <= |txs|
    decreases k
  {
    if j == k then 0
    else
      Spent(ws, txs, j, k - 1, a, owner, spender) +
      if Spends(txs[k - 1], a, owner, spender) && Effective(ws, k - 1)
      then txs[k - 1].call.tok.amount as int else 0
  }

  lemma SpendingTakes(t: T.Token, ledger: u32, spender: Address, owner: Address, to: Address, amount: i128)
    requires T.TransferFrom(t, ledger, spender, owner, to, amount).Ok?
    ensures (owner, spender) in t.allowances && ledger <= t.allowances[(owner, spender)].expiryLedger
    ensures 0 < amount <= t.allowances[(owner, spender)].amount
    ensures var r := t.allowances[(owner, spender)];
      T.TransferFrom(t, ledger, spender, owner, to, amount).value.allowances ==
        t.allowances[(owner, spender) := r.(amount := r.amount - amount)]
  {
  }

  lemma TransferKeepsAllowances(t: T.Token, from: Address, to: Address, amount: i128)
    requires T.Transfer(t, from, to, amount).Ok?
    ensures T.Transfer(t, from, to, amount).value.allowances == t.allowances
  {
  }

  lemma OtherTokenCallsKeepAllowances(t: T.Token, ledger: u32, caller: Address, call: T.TokenCall)
    requires T.Step(t, ledger, caller, call).Ok? && !call.TransferFromCall? && !call.ApproveCall?
    ensures T.Step(t, ledger, caller, call).value.allowances == t.allowances
  {
    if call.TransferCall? { TransferKeepsAllowances(t, caller, call.to, call.amount); }
  }

  /** Only approvals and spendings by this pair touch the pair's allowance, and a spending takes its amount. */
  lemma TokenCallKeepsAllowance(t: T.Token, ledger: u32, caller: Address, call: T.TokenCall, owner: Address,
                                spender: Address)
    requires T.Step(t, ledger, caller, call).Ok? && (owner, spender) in t.allowances
    requires !(call.ApproveCall? && caller == owner && call.spender == spender)
    ensures (owner, spender) in T.Step(t, ledger, caller, call).value.allowances
    ensures var t' := T.Step(t, ledger, caller, call).value;
      var (r, r') := (t.allowances[(owner, spender)], t'.allowances[(owner, spender)]);
      if call.TransferFromCall? && caller == spender && call.from == owner
      then ledger <= r.expiryLedger && 0 < call.amount <= r.amount && r' == r.(amount := r.amount - call.amount)
      else r' == r
  {
    match call
    case TransferFromCall(from, to, amount) => SpendingTakes(t, ledger, caller, from, to, amount);
    case ApproveCall(_, _, _) =>
    case _ => OtherTokenCallsKeepAllowances(t, ledger, caller, call);
  }

  /** The stored allowance record of the pair on token a. */
  ghost predicate Holds(w: World, a: Address, owner: Address, spender: Address, r: T.Allowance) {
    a in w.tokens && (owner, spender) in w.tokens[a].allowances && w.tokens[a].allowances[(owner, spender)] == r
  }

  lemma ApplyKeepsBudget(w: World, tx: Tx, a: Address, owner: Address, spender: Address, r: T.Allowance)
    requires TokensOk(w) && Holds(w, a, owner, spender, r)
    requires !(Approves(tx, a, owner, spender) && Apply(w, tx) != w)
    ensures if Spends(tx, a, owner, spender) && Apply(w, tx) != w
      then tx.env.sequence <= r.expiryLedger && 0 < tx.call.tok.amount <= r.amount
           && Holds(Apply(w, tx), a, owner, spender, r.(amount := r.amount - tx.call.tok.amount))
      else Holds(Apply(w, tx), a, owner, spender, r)
  {
    if Apply(w, tx) != w {
      EffectiveKeepsBudget(w, tx, a, owner, spender, r);
    }
  }

  lemma EffectiveKeepsBudget(w: World, tx: Tx, a: Address, owner: Address, spender: Address, r: T.Allowance)
    requires TokensOk(w) && Holds(w, a, owner, spender, r)
    requires Submit(w, tx).Ok? && !Approves(tx, a, owner, spender)
    ensures if Spends(tx, a, owner, spender)
      then tx.env.sequence <= r.expiryLedger && 0 < tx.call.tok.amount <= r.amount
           && Holds(Apply(w, tx), a, owner, spender, r.(amount := r.amount - tx.call.tok.amount))
      else Holds(Apply(w, tx), a, owner, spender, r)
  {
    match tx.call
    case ToGovernance(call) => GovCallOnToken(w, tx.env, tx.caller, call, a);
    case ToToken(b, call) =>
      if b == a { TokenCallKeepsAllowance(w.tokens[b], tx.env.sequence, tx.caller, call, owner, spender); }
    case ToVault(call) => VaultCallOnToken(w, tx.env, tx.caller, call, a);
  }

  /** No approval for the pair changes anything between j and k. */
  ghost predicate NoApproval(ws: seq<World>, txs: seq<Tx>, j: nat, k: nat, a: Address, owner: Address, spender: Address)
    requires k <= |txs|
  {
    forall n :: j <= n < k ==> !(Approves(txs[n], a, owner, spender) && Effective(ws, n))
  }

  lemma NextKeepsBudget(ws: seq<World>, txs: seq<Tx>, j: nat, a: Address, owner: Address, spender: Address,
                        r: T.Allowance)
    requires Run(ws, txs) && j < |txs| && TokensOk(ws[j]) && Holds(ws[j], a, owner, spender, r)
    requires !(Approves(txs[j], a, owner, spender) && Effective(ws, j))
    ensures if Spends(txs[j], a, owner, spender) && Effective(ws, j)
      then txs[j].env.sequence <= r.expiryLedger && 0 < txs[j].call.tok.amount <= r.amount
           && Holds(ws[j + 1], a, owner, spender, r.(amount := r.amount - txs[j].call.tok.amount))
      else Holds(ws[j + 1], a, owner, spender, r)
  {
    assert StepAt(ws, txs, j);
    ApplyKeepsBudget(ws[j], txs[j], a, owner, spender, r);
  }

  /** Allowance budget: from an approval until the next one, what has been spent and what is left add up to
      what was approved, whatever else happens in between. */
  lemma {:induction false} SpentPlusRestIsApproved(ws: seq<World>, txs: seq<Tx>, j: nat, k: nat, a: Address,
                                                   owner: Address, spender: Address, r: T.Allowance)
    requires Run(ws, txs) && WorldOk(ws[0]) && j <= k <= |txs|
    requires Holds(ws[j], a, owner, spender, r) && NoApproval(ws, txs, j, k, a, owner, spender)
    ensures I128_MIN <= r.amount - Spent(ws, txs, j, k, a, owner, spender) <= I128_MAX
    ensures 0 <= Spent(ws, txs, j, k, a, owner, spender)
    ensures 0 <= r.amount ==> Spent(ws, txs, j, k, a, owner, spender) <= r.amount
    ensures Holds(ws[k], a, owner, spender, r.(amount := r.amount - Spent(ws, txs, j, k, a, owner, spender)))
    decreases k
  {
    if j < k {
      SpentPlusRestIsApproved(ws, txs, j, k - 1, a, owner, spender, r);
      RunKeepsWorldOk(ws, txs, k - 1);
      var rest := r.(amount := r.amount - Spent(ws, txs, j, k - 1, a, owner, spender));
      NextKeepsBudget(ws, txs, k - 1, a, owner, spender, rest);
    }
  }

  /** Nothing is spent at a ledger later than the approval's expiry: the attempt changes nothing. */
  lemma NothingSpentAfterExpiry(ws: seq<World>, txs: seq<Tx>, j: nat, k: nat, a: Address, owner: Address,
                                spender: Address, r: T.Allowance)
    requires Run(ws, txs) && WorldOk(ws[0]) && j <= k < |txs|
    requires Holds(ws[j], a, owner, spender, r) && NoApproval(ws, txs, j, k, a, owner, spender)
    requires txs[k].env.sequence > r.expiryLedger && Spends(txs[k], a, owner, spender)
    ensures ws[k + 1] == ws[k]
  {
    SpentPlusRestIsApproved(ws, txs, j, k, a, owner, spender, r);
    RunKeepsWorldOk(ws, txs, k);
    NextKeepsBudget(ws, txs, k, a, owner, spender, r.(amount := r.amount - Spent(ws, txs, j, k, a, owner, spender)));
  }

  /** A successful approval sets the record to exactly what was approved. */
  lemma ApprovalSetsBudget(w: World, tx: Tx, a: Address, owner: Address, spender: Address)
    requires Approves(tx, a, owner, spender) && Submit(w, tx).Ok?
    ensures Holds(Apply(w, tx), a, owner, spender, T.Allowance(tx.call.tok.amount, tx.call.tok.expiryLedger))
    ensures tx.call.tok.amount >= 0 && tx.call.tok.expiryLedger > tx.env.sequence
  {
  }

  /** From a record that is not negative no more than its amount is spent. */
  lemma BudgetOf(ws: seq<World>, txs: seq<Tx>, j: nat, k: nat, a: Address, owner: Address, spender: Address,
                 r: T.Allowance)
    requires Run(ws, txs) && WorldOk(ws[0]) && j <= k <= |txs| && 0 <= r.amount
    requires Holds(ws[j], a, owner, spender, r) && NoApproval(ws, txs, j, k, a, owner, spender)
    ensures var spent := Spent(ws, txs, j, k, a, owner, spender);
      0 <= spent <= r.amount && Holds(ws[k], a, owner, spender, T.Allowance(r.amount - spent, r.expiryLedger))
  {
    SpentPlusRestIsApproved(ws, txs, j, k, a, owner, spender, r);
  }

  lemma ApprovedAt(ws: seq<World>, txs: seq<Tx>, j: nat, a: Address, owner: Address, spender: Address)
    returns (r: T.Allowance)
    requires Run(ws, txs) && j < |txs| && Approves(txs[j], a, owner, spender) && Submit(ws[j], txs[j]).Ok?
    ensures r == T.Allowance(txs[j].call.tok.amount, txs[j].call.tok.expiryLedger) && r.amount >= 0
    ensures Holds(ws[j + 1], a, owner, spender, r)
  {
    assert StepAt(ws, txs, j);
    ApprovalSetsBudget(ws[j], txs[j], a, owner, spender);
    r := T.Allowance(txs[j].call.tok.amount, txs[j].call.tok.expiryLedger);
  }

  /** The budget of an approval: from a successful approve call until the next, what has been spent and what is left
      add up to exactly the approved amount, so no more than that is ever spent on it, and the expiry stays. */
  lemma ApprovalIsBudget(ws: seq<World>, txs: seq<Tx>, j: nat, k: nat, a: Address, owner: Address, spender: Address)
    requires Run(ws, txs) && WorldOk(ws[0]) && j < k <= |txs|
    requires Approves(txs[j], a, owner, spender) && Submit(ws[j], txs[j]).Ok?
    requires NoApproval(ws, txs, j + 1, k, a, owner, spender)
    ensures var (approved, spent) := (txs[j].call.tok.amount, Spent(ws, txs, j + 1, k, a, owner, spender));
      && 0 <= spent <= approved
      && Holds(ws[k], a, owner, spender, T.Allowance(approved - spent, txs[j].call.tok.expiryLedger))
  {
    var r := ApprovedAt(ws, txs, j, a, owner, spender);
    BudgetOf(ws, txs, j + 1, k, a, owner, spender, r);
  }
}
