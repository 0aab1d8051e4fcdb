/** POST /api/intents/propose: proposes an `MPTokenAuthorize` transaction order in the configured domain. */
module ProposeRoute {
  import opened Wrappers
  import opened JsSemantics
  import opened Envelope

  /** The request body fields the handler reads; None stands for an absent key. */
  datatype ProposeRequest = ProposeRequest(issuanceId: Option<string>, accountId: Option<string>)

  /** Unlike the other routes, `issuanceId` is checked before `accountId`. */
  function Post(req: ProposeRequest, env: Environment): (r: Result<Envelope, string>)
    requires ValidClock(env)
    ensures !Truthy(req.issuanceId) ==> r == Failure("issuanceId is required")
    ensures Truthy(req.issuanceId) && !Truthy(req.accountId) ==> r == Failure("accountId is required")
    ensures r.Success? <==> Truthy(req.issuanceId) && Truthy(req.accountId)
    ensures r.Success? ==>
              && r.value.author == Author(CurrentUserId, ConfiguredDomainId)
              && r.value.targetDomainId == ConfiguredDomainId
              && r.value.payload.CreateTransactionOrder?
              && r.value.payload.accountId == req.accountId.value
              && r.value.payload.operation == MPTokenAuthorize(req.issuanceId.value)
              && r.value.payload.orderDescription == "Test MPT Authorize"
              && r.value.description == "Transfer order creation intent"
              && r.value.payload.orderProperties == Property1("flo")
              && r.value.customProperties == Property1("flo")
  {
    if !Truthy(req.issuanceId) then Failure("issuanceId is required")
    else if !Truthy(req.accountId) then Failure("accountId is required")
    else
      Success(TransactionOrder(env, ConfiguredDomainId, req.accountId.value,
                               MPTokenAuthorize(req.issuanceId.value),
                               "Test MPT Authorize", Property1("flo"),
                               "Transfer order creation intent", Property1("flo")))
  }
}
