/** POST /api/intents/release-transfers: proposes releasing quarantined transfers of one account. */
module ReleaseTransfersRoute {
  import opened Wrappers
  import opened JsSemantics
  import opened Json
  import opened IsoTime
  import opened Envelope

  /** The request body fields the handler reads; None stands for an absent key. */
  datatype ReleaseRequest = ReleaseRequest(accountId: Option<string>, transferIds: ArrayField<string>)

  /** `Release ${n} quarantined transfer${n > 1 ? "s" : ""}`. */
  function ReleaseDescription(n: nat): (d: string)
    ensures |d| >= 1 && (d[|d| - 1] == 's' <==> n > 1)
  {
    "Release " + NatToDecimal(n) + " quarantined transfer" + (if n > 1 then "s" else "")
  }

  /** The handler up to the SDK call. Only one id is drawn: the payload has none. */
  function Post(req: ReleaseRequest, env: Environment): (r: Result<Envelope, string>)
    requires ValidClock(env)
    ensures !Truthy(req.accountId) ==> r == Failure("accountId is required")
    ensures Truthy(req.accountId) && !NonEmptyArray(req.transferIds)
            ==> r == Failure("transferIds array is required and must not be empty")
    ensures r.Success? <==> Truthy(req.accountId) && NonEmptyArray(req.transferIds)
    ensures r.Success? ==>
              && r.value.author == Author(CurrentUserId, ConfiguredDomainId)
              && r.value.targetDomainId == ConfiguredDomainId
              && r.value.expiryAt == ExpiryAt(env)
              && r.value.id == env.newId(0)
              && r.value.payload == ReleaseQuarantinedTransfers(req.accountId.value, req.transferIds.items)
              && r.value.description == ReleaseDescription(|req.transferIds.items|)
              && r.value.customProperties == NoProperties
  {
    if !Truthy(req.accountId) then Failure("accountId is required")
    else if !NonEmptyArray(req.transferIds) then Failure("transferIds array is required and must not be empty")
    else
      var ids := req.transferIds.items;
      Success(Envelope(Author(CurrentUserId, ConfiguredDomainId), ExpiryAt(env), ConfiguredDomainId, env.newId(0),
                       ReleaseQuarantinedTransfers(req.accountId.value, ids),
                       ReleaseDescription(|ids|), NoProperties))
  }

  /** The count in the description reads back as the number of transfers. */
  lemma DescriptionCount(n: nat)
    ensures ParseInt(ReleaseDescription(n)[8..]) == Some(n)
  {
    var d := ReleaseDescription(n);
    var rest := " quarantined transfer" + (if n > 1 then "s" else "");
    assert d[8..] == NatToDecimal(n) + rest;
    ParseIntOfDecimalPrefix(n, rest);
  }

  /** The payload is exactly `{ accountId, transferIds, type }`, with the ids in request order. */
  lemma ReleasePayloadShape(req: ReleaseRequest, env: Environment)
    requires ValidClock(env)
    requires Post(req, env).Success?
    ensures PayloadKeys(Post(req, env).value.payload) == ["accountId", "transferIds", "type"]
    ensures MembersOf(PayloadJson(Post(req, env).value.payload))[1].value == Strings(req.transferIds.items)
  {
  }
}
