/**
 * The issuance-set form: the lock/unlock choice, the all-holders versus
 * one-holder scope, the submit guard and button rule, and the body sent to
 * POST /api/mpt/set.
 */
module MptSetTab {
  import opened Wrappers
  import opened JsSemantics
  import opened Envelope
  import MptSetRoute

  /** The two radio values: tfMPTLock and tfMPTUnlock. */
  const SetFlagValues: seq<int> := [1, 2]

  const NoFlagError: string := "Please select either Lock or Unlock flag"

  datatype SetForm = SetForm(
    accountId: string, issuanceId: string, holderAddress: string, applyToAll: bool, selectedFlag: Option<int>)

  /** What every reachable form satisfies: no flag chosen yet, or one of the two radio values. */
  predicate FormInvariant(form: SetForm) {
    form.selectedFlag.None? || form.selectedFlag.value in SetFlagValues
  }

  /** The form as first shown: all holders, no flag; `defaultAccountId` stands for the configured default account. */
  function InitialForm(defaultAccountId: string): (form: SetForm)
    ensures FormInvariant(form) && form.applyToAll && form.selectedFlag.None?
  {
    SetForm(defaultAccountId, "", "", true, None)
  }

  datatype Event =
    | FlagChosen(index: nat)
    | ApplyToAllChosen
    | SpecificHolderChosen
    | HolderTyped(text: string)
    | IssuanceTyped(text: string)
    | AccountChosen(id: string)

  /** The state after one input event; the radio buttons are addressed by position. */
  function Step(form: SetForm, ev: Event): (next: SetForm)
    requires ev.FlagChosen? ==> ev.index < |SetFlagValues|
    ensures FormInvariant(form) ==> FormInvariant(next)
    ensures ev == ApplyToAllChosen ==> next.applyToAll && next.holderAddress == ""
    ensures ev == SpecificHolderChosen ==> !next.applyToAll && next.holderAddress == form.holderAddress
  {
    match ev
    case FlagChosen(index) => form.(selectedFlag := Some(SetFlagValues[index]))
    case ApplyToAllChosen => form.(applyToAll := true, holderAddress := "")
    case SpecificHolderChosen => form.(applyToAll := false)
    case HolderTyped(text) => form.(holderAddress := text)
    case IssuanceTyped(text) => form.(issuanceId := text)
    case AccountChosen(id) => form.(accountId := id)
  }

  /** handleSubmit: stops with an error while no flag is chosen; otherwise the body it posts. */
  function Submit(form: SetForm, domainId: string): (r: Result<MptSetRoute.MptSetRequest, string>)
    ensures (form.selectedFlag.None? || form.selectedFlag == Some(0)) <==> r == Failure(NoFlagError)
    ensures r.Success? ==> r.value.holder == (if form.applyToAll then None else Some(form.holderAddress))
    ensures r.Success? ==> r.value.flags == form.selectedFlag
  {
    if form.selectedFlag.None? || form.selectedFlag.value == 0 then Failure(NoFlagError)
    else
      Success(MptSetRoute.MptSetRequest(
        Some(form.accountId), Some(domainId), Some(form.issuanceId),
        if form.applyToAll then None else Some(form.holderAddress), form.selectedFlag))
  }

  /**
   * The submit button's rule: the button is enabled exactly when nothing is
   * loading, a domain and an account exist, the form's own checks pass and a
   * chosen single holder has been typed.
   */
  function SubmitEnabled(loading: bool, domainId: string, accountCount: nat, form: SetForm): (r: bool)
    ensures r <==> !loading && domainId != "" && accountCount > 0 && Submit(form, domainId).Success?
                   && (Submit(form, domainId).value.holder.None? || Submit(form, domainId).value.holder.value != "")
    ensures r ==> Submit(form, domainId).value.domainId == Some(domainId)
  {
    !loading && domainId != "" && accountCount > 0 && form.selectedFlag.Some? && form.selectedFlag.value != 0
    && (form.applyToAll || form.holderAddress != "")
  }

  /** Whatever the form sends as the flag always passes the route's flag check. */
  lemma SentFlagAccepted(form: SetForm, domainId: string)
    requires FormInvariant(form) && Submit(form, domainId).Success?
    ensures MptSetRoute.FlagAccepted(Submit(form, domainId).value.flags)
  {
  }

  /** Switching to all holders and back leaves no holder, so the button stays off until one is typed. */
  lemma ScopeRoundTripNeedsHolder(form: SetForm, loading: bool, domainId: string, accountCount: nat)
    ensures var back := Step(Step(form, ApplyToAllChosen), SpecificHolderChosen);
            back.holderAddress == "" && !SubmitEnabled(loading, domainId, accountCount, back)
  {
  }

  /**
   * An enabled submit, with an account and an issuance filled in, proposes the
   * set with the chosen flag, for every holder or for the typed one, and with
   * the Lock or Unlock descriptions.
   */
  lemma SubmittedSet(form: SetForm, loading: bool, domainId: string, accountCount: nat, env: Environment)
    requires ValidClock(env) && FormInvariant(form)
    requires SubmitEnabled(loading, domainId, accountCount, form)
    requires form.accountId != "" && form.issuanceId != ""
    ensures Submit(form, domainId).Success?
    ensures var r := MptSetRoute.Post(Submit(form, domainId).value, env);
            && r.Success?
            && r.value.payload.operation.issuanceId == form.issuanceId
            && r.value.payload.operation.setFlags == form.selectedFlag.value
            && r.value.payload.operation.holder == (if form.applyToAll then None else Some(form.holderAddress))
            && (r.value.description == "Set MPT Issuance - Lock" <==> form.selectedFlag == Some(1))
            && (r.value.description == "Set MPT Issuance - Unlock" <==> form.selectedFlag == Some(2))
  {
  }

  /** The issuance id is not part of the button's rule: with it empty the route turns the request down. */
  lemma MissingIssuanceRejected(form: SetForm, loading: bool, domainId: string, accountCount: nat, env: Environment)
    requires ValidClock(env) && SubmitEnabled(loading, domainId, accountCount, form)
    requires form.accountId != "" && form.issuanceId == ""
    ensures MptSetRoute.Post(Submit(form, domainId).value, env) == Failure("issuanceId is required")
  {
  }
}
