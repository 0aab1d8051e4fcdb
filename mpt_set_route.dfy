/** POST /api/mpt/set: proposes an `MPTokenIssuanceSet` (lock or unlock) transaction order. */
module MptSetRoute {
  import opened Wrappers
  import opened JsSemantics
  import opened Envelope

  const LockFlag: int := 1
  const UnlockFlag: int := 2

  /** The request body fields the handler reads; None stands for an absent key. */
  datatype MptSetRequest = MptSetRequest(
    accountId: Option<string>, domainId: Option<string>, issuanceId: Option<string>,
    holder: Option<string>, flags: Option<int>)

  /** `!flags || (flags !== 1 && flags !== 2)` is false exactly for 1 and 2. */
  function FlagAccepted(flags: Option<int>): (r: bool)
    ensures !r <==> !TruthyNumber(flags) || (flags.value != 1 && flags.value != 2)
  {
    flags == Some(LockFlag) || flags == Some(UnlockFlag)
  }

  /** The word the descriptions end with: `flags === 1 ? "Lock" : "Unlock"`. */
  function Action(flags: int): (w: string)
    ensures w == "Lock" <==> flags == LockFlag
    ensures w == "Lock" || w == "Unlock"
  {
    if flags == LockFlag then "Lock" else "Unlock"
  }

  /** `MPT Issuance Set - ${action}`, the order's description. */
  function OrderDescription(flags: int): (d: string)
    ensures d == if flags == LockFlag then "MPT Issuance Set - Lock" else "MPT Issuance Set - Unlock"
  {
    "MPT Issuance Set - " + Action(flags)
  }

  /** `Set MPT Issuance - ${action}`, the intent's description. */
  function IntentDescription(flags: int): (d: string)
    ensures d == if flags == LockFlag then "Set MPT Issuance - Lock" else "Set MPT Issuance - Unlock"
  {
    "Set MPT Issuance - " + Action(flags)
  }

  function Post(req: MptSetRequest, env: Environment): (r: Result<Envelope, string>)
    requires ValidClock(env)
    ensures !Truthy(req.accountId) ==> r == Failure("accountId is required")
    ensures Truthy(req.accountId) && !Truthy(req.domainId) ==> r == Failure("domainId is required")
    ensures Truthy(req.accountId) && Truthy(req.domainId) && !Truthy(req.issuanceId)
            ==> r == Failure("issuanceId is required")
    ensures Truthy(req.accountId) && Truthy(req.domainId) && Truthy(req.issuanceId) && !FlagAccepted(req.flags)
            ==> r == Failure("flags must be 1 (Lock) or 2 (Unlock)")
    ensures r.Success? <==> Truthy(req.accountId) && Truthy(req.domainId) && Truthy(req.issuanceId) && FlagAccepted(req.flags)
    ensures r.Success? ==>
              && r.value.author == Author(CurrentUserId, req.domainId.value)
              && r.value.targetDomainId == req.domainId.value
              && r.value.payload.CreateTransactionOrder?
              && r.value.payload.accountId == req.accountId.value
              && r.value.payload.operation.MPTokenIssuanceSet?
              && r.value.payload.operation.issuanceId == req.issuanceId.value
              && r.value.payload.operation.setFlags == req.flags.value
              && (r.value.payload.operation.holder.Some? <==> Truthy(req.holder))
              && (r.value.payload.operation.holder.Some? ==> r.value.payload.operation.holder == req.holder)
              && r.value.payload.orderDescription
                 == (if req.flags == Some(LockFlag) then "MPT Issuance Set - Lock" else "MPT Issuance Set - Unlock")
              && r.value.description
                 == (if req.flags == Some(LockFlag) then "Set MPT Issuance - Lock" else "Set MPT Issuance - Unlock")
              && r.value.payload.orderProperties == Property1("mpt-set")
              && r.value.customProperties == Property1("mpt-issuance-set")
  {
    if !Truthy(req.accountId) then Failure("accountId is required")
    else if !Truthy(req.domainId) then Failure("domainId is required")
    else if !Truthy(req.issuanceId) then Failure("issuanceId is required")
    else if !(req.flags.Some? && req.flags.value != 0) || (req.flags.value != 1 && req.flags.value != 2) then
      Failure("flags must be 1 (Lock) or 2 (Unlock)")
    else
      var flags := req.flags.value;
      Success(TransactionOrder(env, req.domainId.value, req.accountId.value,
                               MPTokenIssuanceSet(req.issuanceId.value, flags, Spread(req.holder)),
                               OrderDescription(flags), Property1("mpt-set"),
                               IntentDescription(flags), Property1("mpt-issuance-set")))
  }

  /** No holder in the request means no `holder` key: the order applies to every holder. */
  lemma SetOperationKeys(req: MptSetRequest, env: Environment)
    requires ValidClock(env)
    requires Post(req, env).Success?
    ensures OperationKeys(Post(req, env).value.payload.operation)
            == ["type", "issuanceId", "flags"] + (if Truthy(req.holder) then ["holder"] else [])
  {
    IssuanceSetKeys(Post(req, env).value.payload.operation);
  }
}
