/**
 * The account-create form: ledger checkboxes and the custom-ledger box, the
 * submit button's enable rule, and the body sent to POST /api/accounts/create.
 */
module AccountCreateTab {
  import opened Wrappers
  import opened JsSemantics
  import opened ListEdits
  import opened Envelope
  import AccountsCreateRoute

  /** The ledger ticked when the form opens. */
  const InitialLedgers: seq<string> := ["xrpl-devnet"]

  /** The three key strategies the form offers. */
  datatype KeyStrategy = VaultSoft | VaultHard | Random

  function KeyStrategyName(k: KeyStrategy): (s: string)
    ensures s != ""
  {
    match k
    case VaultSoft => "VaultSoft"
    case VaultHard => "VaultHard"
    case Random => "Random"
  }

  datatype AccountForm = AccountForm(
    alias: string, vaultId: string, keyStrategy: KeyStrategy, ledgers: seq<string>, customLedger: string,
    lock: string, description: string)

  function InitialForm(): (form: AccountForm)
    ensures form.ledgers == InitialLedgers && NoDup(form.ledgers)
    ensures form.keyStrategy == VaultSoft && form.lock == "Unlocked"
  {
    AccountForm("", "", VaultSoft, InitialLedgers, "", "Unlocked", "")
  }

  /** handleLedgerToggle: flips the one ledger, the others keep their state. */
  function ToggleLedger(form: AccountForm, ledgerId: string): (r: AccountForm)
    ensures ledgerId in r.ledgers <==> ledgerId !in form.ledgers
    ensures forall y :: y != ledgerId ==> (y in r.ledgers <==> y in form.ledgers)
    ensures r == form.(ledgers := r.ledgers)
  {
    form.(ledgers := Toggle(form.ledgers, ledgerId))
  }

  /**
   * addCustomLedger: a typed id that is not yet ticked is appended and the box
   * cleared; an empty or already ticked id changes nothing.
   */
  function AddCustomLedger(form: AccountForm): (r: AccountForm)
    ensures form.customLedger != "" && form.customLedger !in form.ledgers
            ==> r == form.(ledgers := form.ledgers + [form.customLedger], customLedger := "")
    ensures !(form.customLedger != "" && form.customLedger !in form.ledgers) ==> r == form
  {
    var admitted := form.customLedger != "" && form.customLedger !in form.ledgers;
    if admitted then form.(ledgers := AppendIfNew(form.ledgers, form.customLedger, true), customLedger := "")
    else form
  }

  /** The ledger edits never tick a ledger twice. */
  lemma LedgerEditsKeepDistinct(form: AccountForm, ledgerId: string)
    requires NoDup(form.ledgers)
    ensures NoDup(ToggleLedger(form, ledgerId).ledgers)
    ensures NoDup(AddCustomLedger(form).ledgers)
  {
    ToggleKeepsNoDup(form.ledgers, ledgerId);
  }

  /** A custom ledger, once added, can be unticked again and the selection is as before. */
  lemma AddThenUntick(form: AccountForm)
    requires form.customLedger != "" && form.customLedger !in form.ledgers
    ensures ToggleLedger(AddCustomLedger(form), form.customLedger).ledgers == form.ledgers
  {
    WithoutAppended(form.ledgers, form.customLedger);
  }

  /** The body handleSubmit posts: the selection only when non-empty, the description only when typed. */
  function RequestOf(form: AccountForm, domainId: string): (req: AccountsCreateRoute.CreateAccountRequest)
    ensures req.ledgerIds.None? <==> form.ledgers == []
    ensures req.ledgerIds.Some? ==> req.ledgerIds.value == form.ledgers
    ensures req.description.None? <==> form.description == ""
    ensures req.keyStrategy == Some(KeyStrategyName(form.keyStrategy))
  {
    AccountsCreateRoute.CreateAccountRequest(
      Some(domainId), Some(form.alias), Some(form.vaultId), Some(KeyStrategyName(form.keyStrategy)),
      if |form.ledgers| > 0 then Some(form.ledgers) else None, Some(form.lock), NonEmpty(form.description))
  }

  /** The submit button: enabled unless loading or one of domain, alias and vault is empty. */
  function SubmitEnabled(loading: bool, domainId: string, form: AccountForm): (r: bool)
    ensures r <==> !loading && AccountsCreateRoute.Complete(RequestOf(form, domainId))
  {
    !loading && domainId != "" && form.alias != "" && form.vaultId != ""
  }

  /** Outside a request in flight, the button is enabled exactly when the route's guards all pass. */
  lemma EnabledIffRouteAccepts(form: AccountForm, domainId: string)
    ensures SubmitEnabled(false, domainId, form) <==> AccountsCreateRoute.Complete(RequestOf(form, domainId))
  {
  }

  /**
   * An enabled submit proposes the account with the chosen key strategy and
   * vault, the lock, the ticked ledgers only when there are some, and the
   * description only when typed (otherwise the alias-based default).
   */
  lemma SubmittedAccount(form: AccountForm, loading: bool, domainId: string, env: Environment,
                         currentUser: string -> Author)
    requires ValidClock(env) && SubmitEnabled(loading, domainId, form)
    ensures var r := AccountsCreateRoute.Post(RequestOf(form, domainId), env, currentUser);
            && r.Success?
            && r.value.targetDomainId == domainId
            && r.value.payload.alias == form.alias && r.value.payload.vaultId == form.vaultId
            && r.value.payload.keyStrategy == KeyStrategyName(form.keyStrategy)
            && r.value.payload.lock == (if form.lock != "" then form.lock else "Unlocked")
            && r.value.payload.ledgerIds == (if form.ledgers == [] then None else Some(form.ledgers))
            && r.value.payload.description == NonEmpty(form.description)
            && r.value.description == (if form.description != "" then form.description else "Create account: " + form.alias)
  {
  }
}
