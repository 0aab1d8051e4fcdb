/** POST /api/accounts/create: proposes a `v0_CreateAccount` intent. */
module AccountsCreateRoute {
  import opened Wrappers
  import opened JsSemantics
  import opened Json
  import opened Envelope

  /** The request body fields the handler reads; None stands for an absent key. */
  datatype CreateAccountRequest = CreateAccountRequest(
    domainId: Option<string>, alias: Option<string>, vaultId: Option<string>, keyStrategy: Option<string>,
    ledgerIds: Option<seq<string>>, lock: Option<string>, description: Option<string>)

  predicate Complete(req: CreateAccountRequest) {
    Truthy(req.domainId) && Truthy(req.alias) && Truthy(req.vaultId) && Truthy(req.keyStrategy)
  }

  /**
   * The handler up to the SDK call: the message of the first failing guard,
   * or the envelope it proposes. `currentUser` stands for `getCurrentUser`.
   */
  function Post(req: CreateAccountRequest, env: Environment, currentUser: string -> Author)
    : (r: Result<Envelope, string>)
    requires ValidClock(env)
    ensures !Truthy(req.domainId) ==> r == Failure("domainId is required")
    ensures Truthy(req.domainId) && !Truthy(req.alias) ==> r == Failure("alias is required")
    ensures Truthy(req.domainId) && Truthy(req.alias) && !Truthy(req.vaultId) ==> r == Failure("vaultId is required")
    ensures Truthy(req.domainId) && Truthy(req.alias) && Truthy(req.vaultId) && !Truthy(req.keyStrategy)
            ==> r == Failure("keyStrategy is required")
    ensures r.Success? <==> Complete(req)
    ensures r.Success? ==>
              && r.value.author == currentUser(req.domainId.value)
              && r.value.targetDomainId == req.domainId.value
              && r.value.expiryAt == ExpiryAt(env)
              && r.value.id == env.newId(0)
              && r.value.customProperties == NoProperties
              && r.value.payload.CreateAccount?
              && r.value.payload.id == env.newId(1)
              && r.value.payload.alias == req.alias.value && r.value.payload.vaultId == req.vaultId.value
              && r.value.payload.keyStrategy == req.keyStrategy.value
              && r.value.payload.lock == (if Truthy(req.lock) then req.lock.value else "Unlocked")
              && (r.value.payload.description.Some? <==> Truthy(req.description))
              && (r.value.payload.description.Some? ==> r.value.payload.description == req.description)
              && (r.value.payload.ledgerIds.Some? <==> req.ledgerIds.Some? && |req.ledgerIds.value| > 0)
              && (r.value.payload.ledgerIds.Some? ==> r.value.payload.ledgerIds == req.ledgerIds)
              && r.value.description
                 == (if Truthy(req.description) then req.description.value else "Create account: " + req.alias.value)
  {
    if !Truthy(req.domainId) then Failure("domainId is required")
    else if !Truthy(req.alias) then Failure("alias is required")
    else if !Truthy(req.vaultId) then Failure("vaultId is required")
    else if !Truthy(req.keyStrategy) then Failure("keyStrategy is required")
    else
      var domainId, alias := req.domainId.value, req.alias.value;
      var ledgerIds := if req.ledgerIds.Some? && |req.ledgerIds.value| > 0 then req.ledgerIds else None;
      Success(Envelope(
        currentUser(domainId), ExpiryAt(env), domainId, env.newId(0),
        CreateAccount(env.newId(1), alias, req.vaultId.value, req.keyStrategy.value,
                      OrElse(req.lock, "Unlocked"), Spread(req.description), ledgerIds),
        OrElse(req.description, "Create account: " + alias),
        NoProperties))
  }

  /** The payload object's keys, in order: the optional `description` and `ledgerIds` appear only when sent. */
  lemma CreateAccountPayloadKeys(req: CreateAccountRequest, env: Environment, currentUser: string -> Author)
    requires ValidClock(env) && Complete(req)
    ensures PayloadKeys(Post(req, env, currentUser).value.payload)
            == ["id", "alias", "providerDetails", "lock"]
               + (if Truthy(req.description) then ["description"] else [])
               + (if req.ledgerIds.Some? && |req.ledgerIds.value| > 0 then ["ledgerIds"] else [])
               + ["customProperties", "type"]
  {
    CreateAccountKeys(Post(req, env, currentUser).value.payload);
  }
}
