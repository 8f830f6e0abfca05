/** The two-step admin transfer over whole runs. */
module Handover {
  import opened Host
  import opened SystemSpec
  import opened SystemLaws
  import opened GovernanceLaws
  import opened GovernanceSpec
  import Calls = GovernanceCalls

  /** An offer of the admin role that has been made and not yet accepted, cancelled or replaced. */
  datatype Offer = Offer(giver: Address, to: Address)

  function Setting(tx: Tx): Option<ConfigCall> {
    if tx.call.ToGovernance? && tx.call.gov.Configure? then Some(tx.call.gov.setting) else None
  }

  /** The open offer after k transactions, read off the transaction history alone. */
  ghost function OpenOffer(ws: seq<World>, txs: seq<Tx>, k: nat): Option<Offer>
    requires Run(ws, txs) && k <= |txs|
  {
    if k == 0 then None
    else
      var (before, tx) := (OpenOffer(ws, txs, k - 1), txs[k - 1]);
      if Submit(ws[k - 1], tx).Ok? && Setting(tx).Some? then After(before, tx.caller, Setting(tx).value) else before
  }

  /** The open offer after a successful configuration call. */
  function After(before: Option<Offer>, caller: Address, setting: ConfigCall): Option<Offer> {
    match setting
    case ProposeAdminCall(to) => Some(Offer(caller, to))
    case AcceptAdminCall => None
    case CancelAdminTransferCall => None
    case _ => before
  }

  /** The stored pending admin is the addressee of the open offer, which the stored admin made. */
  predicate Agrees(c: Config, o: Option<Offer>) {
    if o.Some? then c.pendingAdmin == Some(o.value.to) && c.admin == Some(o.value.giver) else c.pendingAdmin == None
  }

  lemma SettingKeepsAgreement(g: Gov, caller: Address, setting: ConfigCall, o: Option<Offer>)
    requires GovOk(g) && Agrees(g.config, o) && StepConfig(g, caller, setting).Ok?
    ensures Agrees(StepConfig(g, caller, setting).value.config, After(o, caller, setting))
  {
  }

  lemma OtherCallsKeepAdmins(w: World, tx: Tx)
    requires Setting(tx).None? || !Submit(w, tx).Ok?
    ensures var (c, c') := (w.gov.config, Apply(w, tx).gov.config);
      c'.admin == c.admin && c'.pendingAdmin == c.pendingAdmin
  {
    if Submit(w, tx).Ok? && tx.call.ToGovernance? {
      var call := tx.call.gov;
      var paid := call.On? && call.act.ExecuteCall? && PayDue(w, tx.env, call.id).Ok?;
      StepShape(w.gov, tx.env, w.tokens, paid, tx.caller, call);
    }
  }

  /** The pending admin is the addressee of the open offer, and the open offer was made by today's admin. */
  lemma {:induction false} PendingIsOpenOffer(ws: seq<World>, txs: seq<Tx>, k: nat)
    requires Run(ws, txs) && Genesis(ws[0]) && k <= |txs|
    ensures Agrees(ws[k].gov.config, OpenOffer(ws, txs, k))
  {
    if k > 0 {
      PendingIsOpenOffer(ws, txs, k - 1);
      NextAgrees(ws, txs, k - 1);
    }
  }

  lemma NextAgrees(ws: seq<World>, txs: seq<Tx>, k: nat)
    requires Run(ws, txs) && Genesis(ws[0]) && k < |txs| && Agrees(ws[k].gov.config, OpenOffer(ws, txs, k))
    ensures Agrees(ws[k + 1].gov.config, OpenOffer(ws, txs, k + 1))
  {
    GenesisOk(ws[0]);
    RunKeepsWorldOk(ws, txs, k);
    assert StepAt(ws, txs, k);
    ApplyKeepsAgreement(ws[k], txs[k], OpenOffer(ws, txs, k));
  }

  lemma ApplyKeepsAgreement(w: World, tx: Tx, o: Option<Offer>)
    requires GovOk(w.gov) && Agrees(w.gov.config, o)
    ensures Agrees(Apply(w, tx).gov.config,
      if Submit(w, tx).Ok? && Setting(tx).Some? then After(o, tx.caller, Setting(tx).value) else o)
  {
    if Submit(w, tx).Ok? && Setting(tx).Some? {
      SettingKeepsAgreement(w.gov, tx.caller, Setting(tx).value, o);
    } else {
      OtherCallsKeepAdmins(w, tx);
    }
  }

  /** A configuration call that replaces the admin is an acceptance by the pending admin. */
  lemma OnlyAcceptanceReplaces(g: Gov, caller: Address, setting: ConfigCall)
    requires GovOk(g) && g.config.admin.Some? && StepConfig(g, caller, setting).Ok?
    requires StepConfig(g, caller, setting).value.config.admin != g.config.admin
    ensures setting == AcceptAdminCall && g.config.pendingAdmin == Some(caller)
    ensures var c := StepConfig(g, caller, setting).value.config; c.admin == Some(caller) && c.pendingAdmin == None
  {
  }

  /** Admin handover: once set, the admin changes only when the addressee of the open offer accepts it,
      and becomes that addressee. */
  lemma AdminChangesOnlyByAcceptance(ws: seq<World>, txs: seq<Tx>, k: nat)
    requires Run(ws, txs) && Genesis(ws[0]) && k < |txs|
    requires ws[k].gov.config.admin.Some? && ws[k + 1].gov.config.admin != ws[k].gov.config.admin
    ensures Setting(txs[k]) == Some(AcceptAdminCall)
    ensures OpenOffer(ws, txs, k) == Some(Offer(ws[k].gov.config.admin.value, txs[k].caller))
    ensures ws[k + 1].gov.config.admin == Some(txs[k].caller) && ws[k + 1].gov.config.pendingAdmin == None
  {
    PendingIsOpenOffer(ws, txs, k);
    GenesisOk(ws[0]);
    RunKeepsWorldOk(ws, txs, k);
    var (v, tx) := (ws[k], txs[k]);
    assert StepAt(ws, txs, k);
    if Setting(tx).None? || !Submit(v, tx).Ok? {
      OtherCallsKeepAdmins(v, tx);
    } else {
      OnlyAcceptanceReplaces(v.gov, tx.caller, Setting(tx).value);
    }
  }

  /** An acceptance succeeds if and only if the caller is the addressee of the open offer, and makes it admin. */
  lemma AcceptanceMakesAdmin(ws: seq<World>, txs: seq<Tx>, k: nat)
    requires Run(ws, txs) && Genesis(ws[0]) && k < |txs| && Setting(txs[k]) == Some(AcceptAdminCall)
    ensures Submit(ws[k], txs[k]).Ok? <==>
      txs[k].caller.Other? && OpenOffer(ws, txs, k).Some? && OpenOffer(ws, txs, k).value.to == txs[k].caller
    ensures ws[k + 1].gov.config ==
      if Submit(ws[k], txs[k]).Ok? then ws[k].gov.config.(admin := Some(txs[k].caller), pendingAdmin := None)
      else ws[k].gov.config
  {
    PendingIsOpenOffer(ws, txs, k);
    var (v, tx) := (ws[k], txs[k]);
    Calls.SettingsTakeEffect(v.gov, tx.env, v.tokens, tx.caller, AcceptAdminCall);
    SubmitToGovernance(v, tx.env, tx.caller, Configure(AcceptAdminCall));
    assert StepAt(ws, txs, k);
  }
}
