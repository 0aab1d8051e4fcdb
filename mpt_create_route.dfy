/** POST /api/mpt/create: proposes an `MPTokenIssuanceCreate` transaction order. */
module MptCreateRoute {
  import opened Wrappers
  import opened JsSemantics
  import opened Json
  import opened Envelope

  /** `maximumAmount` as a client may send it: text (the dashboard's form) or a number. */
  datatype Amount = AmountText(text: string) | AmountNumber(n: int)

  /** `!!maximumAmount`. */
  predicate AmountTruthy(a: Option<Amount>) {
    match a
    case None => false
    case Some(AmountText(t)) => t != ""
    case Some(AmountNumber(n)) => n != 0
  }

  /** `String(maximumAmount)`: a string is sent as typed, a number as decimal text that reads back as the number. */
  function AmountString(a: Amount): (r: string)
    ensures a.AmountText? ==> r == a.text
    ensures a.AmountNumber? ==> ParseInt(r) == Some(a.n)
  {
    match a
    case AmountText(t) => t
    case AmountNumber(n) => ParseIntOfDecimal(n); IntToDecimal(n)
  }

  /** The request body fields the handler reads; None stands for an absent key. */
  datatype MptCreateRequest = MptCreateRequest(
    accountId: Option<string>, domainId: Option<string>, assetScale: Option<int>, transferFee: Option<int>,
    maximumAmount: Option<Amount>, flags: Option<int>, metadata: Option<string>)

  /** `...(v !== undefined && v > 0 && { k: v })`: kept only when positive. */
  function IfPositive(v: Option<int>): (r: Option<int>)
    ensures r.Some? <==> v.Some? && v.value > 0
    ensures r.Some? ==> r == v
  {
    if v.Some? && v.value > 0 then v else None
  }

  /** The operation the handler builds from the optional issuance fields. */
  function IssuanceOperation(req: MptCreateRequest): (op: Operation)
    ensures op.MPTokenIssuanceCreate?
    ensures op.assetScale == req.assetScale
    ensures op.transferFee.Some? <==> req.transferFee.Some? && req.transferFee.value > 0
    ensures op.transferFee.Some? ==> op.transferFee == req.transferFee
    ensures op.maximumAmount.Some? <==> AmountTruthy(req.maximumAmount)
    ensures op.maximumAmount.Some? ==> op.maximumAmount.value == AmountString(req.maximumAmount.value)
    ensures op.flags.Some? <==> req.flags.Some? && req.flags.value > 0
    ensures op.flags.Some? ==> op.flags == req.flags
    ensures op.metadata.Some? <==> Truthy(req.metadata)
    ensures op.metadata.Some? ==> op.metadata == req.metadata
  {
    MPTokenIssuanceCreate(
      req.assetScale,
      IfPositive(req.transferFee),
      if AmountTruthy(req.maximumAmount) then Some(AmountString(req.maximumAmount.value)) else None,
      IfPositive(req.flags),
      Spread(req.metadata))
  }

  function Post(req: MptCreateRequest, env: Environment): (r: Result<Envelope, string>)
    requires ValidClock(env)
    ensures !Truthy(req.accountId) ==> r == Failure("accountId is required")
    ensures Truthy(req.accountId) && !Truthy(req.domainId) ==> r == Failure("domainId is required")
    ensures r.Success? <==> Truthy(req.accountId) && Truthy(req.domainId)
    ensures r.Success? ==>
              && r.value.author == Author(CurrentUserId, req.domainId.value)
              && r.value.targetDomainId == req.domainId.value
              && r.value.expiryAt == ExpiryAt(env)
              && r.value.payload.CreateTransactionOrder?
              && r.value.payload.accountId == req.accountId.value
              && r.value.payload.operation == IssuanceOperation(req)
              && r.value.payload.orderDescription == "MPT Issuance Create"
              && r.value.payload.orderProperties == Property1("mpt-create")
              && r.value.description == "Create new MPT Issuance"
              && r.value.customProperties == Property1("mpt-issuance-create")
  {
    if !Truthy(req.accountId) then Failure("accountId is required")
    else if !Truthy(req.domainId) then Failure("domainId is required")
    else
      Success(TransactionOrder(env, req.domainId.value, req.accountId.value, IssuanceOperation(req),
                               "MPT Issuance Create", Property1("mpt-create"),
                               "Create new MPT Issuance", Property1("mpt-issuance-create")))
  }

  /** The operation object's keys: `type` first, then each optional field that survived its test, in source order. */
  lemma IssuanceOperationKeys(req: MptCreateRequest)
    ensures OperationKeys(IssuanceOperation(req))
            == ["type"]
               + (if req.assetScale.Some? then ["assetScale"] else [])
               + (if req.transferFee.Some? && req.transferFee.value > 0 then ["transferFee"] else [])
               + (if AmountTruthy(req.maximumAmount) then ["maximumAmount"] else [])
               + (if req.flags.Some? && req.flags.value > 0 then ["flags"] else [])
               + (if Truthy(req.metadata) then ["metadata"] else [])
  {
    IssuanceCreateKeys(IssuanceOperation(req));
  }
}
