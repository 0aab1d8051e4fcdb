/** POST /api/mpt/destroy: proposes an `MPTokenIssuanceDestroy` transaction order. */
module MptDestroyRoute {
  import opened Wrappers
  import opened JsSemantics
  import opened Json
  import opened Envelope

  /** The request body fields the handler reads; None stands for an absent key. */
  datatype MptDestroyRequest = MptDestroyRequest(accountId: Option<string>, domainId: Option<string>, issuanceId: Option<string>)

  function Post(req: MptDestroyRequest, env: Environment): (r: Result<Envelope, string>)
    requires ValidClock(env)
    ensures !Truthy(req.accountId) ==> r == Failure("accountId is required")
    ensures Truthy(req.accountId) && !Truthy(req.domainId) ==> r == Failure("domainId is required")
    ensures Truthy(req.accountId) && Truthy(req.domainId) && !Truthy(req.issuanceId)
            ==> r == Failure("issuanceId is required")
    ensures r.Success? <==> Truthy(req.accountId) && Truthy(req.domainId) && Truthy(req.issuanceId)
    ensures r.Success? ==>
              && r.value.author == Author(CurrentUserId, req.domainId.value)
              && r.value.targetDomainId == req.domainId.value
              && r.value.payload.CreateTransactionOrder?
              && r.value.payload.accountId == req.accountId.value
              && r.value.payload.operation == MPTokenIssuanceDestroy(req.issuanceId.value)
              && r.value.payload.orderDescription == "MPT Issuance Destroy"
              && r.value.description == "Destroy MPT Issuance"
              && r.value.payload.orderProperties == Property1("mpt-destroy")
              && r.value.customProperties == Property1("mpt-issuance-destroy")
  {
    if !Truthy(req.accountId) then Failure("accountId is required")
    else if !Truthy(req.domainId) then Failure("domainId is required")
    else if !Truthy(req.issuanceId) then Failure("issuanceId is required")
    else
      Success(TransactionOrder(env, req.domainId.value, req.accountId.value,
                               MPTokenIssuanceDestroy(req.issuanceId.value),
                               "MPT Issuance Destroy", Property1("mpt-destroy"),
                               "Destroy MPT Issuance", Property1("mpt-issuance-destroy")))
  }

  /** The operation object is exactly `{ type, issuanceId }` and the payload is a transaction order. */
  lemma DestroyShape(req: MptDestroyRequest, env: Environment)
    requires ValidClock(env)
    requires Post(req, env).Success?
    ensures OperationKeys(Post(req, env).value.payload.operation) == ["type", "issuanceId"]
    ensures PayloadKeys(Post(req, env).value.payload)
            == ["id", "ledgerId", "accountId", "parameters", "description", "customProperties", "type"]
  {
    var p := Post(req, env).value.payload;
    TransactionOrderKeys(p);
    assert MembersOf(OperationJson(p.operation))
           == [Member("type", Str("MPTokenIssuanceDestroy")), Member("issuanceId", Str(p.operation.issuanceId))];
  }
}
