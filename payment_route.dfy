/** POST /api/intents/payment: proposes an MPT `Payment` transaction order in the configured domain. */
module PaymentRoute {
  import opened Wrappers
  import opened JsSemantics
  import opened Envelope

  /** The request body fields the handler reads; None stands for an absent key. */
  datatype PaymentRequest = PaymentRequest(
    accountId: Option<string>, destinationAddress: Option<string>, amount: Option<string>,
    issuanceId: Option<string>, description: Option<string>)

  function Post(req: PaymentRequest, env: Environment): (r: Result<Envelope, string>)
    requires ValidClock(env)
    ensures !Truthy(req.accountId) ==> r == Failure("accountId is required")
    ensures Truthy(req.accountId) && !Truthy(req.destinationAddress) ==> r == Failure("destinationAddress is required")
    ensures Truthy(req.accountId) && Truthy(req.destinationAddress) && !Truthy(req.amount)
            ==> r == Failure("amount is required")
    ensures Truthy(req.accountId) && Truthy(req.destinationAddress) && Truthy(req.amount) && !Truthy(req.issuanceId)
            ==> r == Failure("issuanceId is required")
    ensures r.Success? <==> Truthy(req.accountId) && Truthy(req.destinationAddress) && Truthy(req.amount) && Truthy(req.issuanceId)
    ensures r.Success? ==>
              && r.value.author == Author(CurrentUserId, ConfiguredDomainId)
              && r.value.targetDomainId == ConfiguredDomainId
              && r.value.payload.CreateTransactionOrder?
              && r.value.payload.accountId == req.accountId.value
              && r.value.payload.operation
                 == Payment(req.destinationAddress.value, req.amount.value, req.issuanceId.value)
              && r.value.payload.orderDescription == (if Truthy(req.description) then req.description.value else "MPT Payment")
              && r.value.description == r.value.payload.orderDescription
              && r.value.payload.orderProperties == Property1("flo")
              && r.value.customProperties == Property1("flo")
  {
    if !Truthy(req.accountId) then Failure("accountId is required")
    else if !Truthy(req.destinationAddress) then Failure("destinationAddress is required")
    else if !Truthy(req.amount) then Failure("amount is required")
    else if !Truthy(req.issuanceId) then Failure("issuanceId is required")
    else
      Success(TransactionOrder(env, ConfiguredDomainId, req.accountId.value,
                               Payment(req.destinationAddress.value, req.amount.value, req.issuanceId.value),
                               OrElse(req.description, "MPT Payment"), Property1("flo"),
                               OrElse(req.description, "MPT Payment"), Property1("flo")))
  }
}
