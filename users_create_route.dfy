/** POST /api/users/create: proposes a `v0_CreateUser` intent. */
module UsersCreateRoute {
  import opened Wrappers
  import opened JsSemantics
  import opened Json
  import opened Envelope

  /** One element of the request's `loginIds`: the two fields read, and whatever else the client sent. */
  datatype LoginInput = LoginInput(id: string, providerId: string, otherFields: seq<Member>)

  /** The request body fields the handler reads; None stands for an absent key. */
  datatype CreateUserRequest = CreateUserRequest(
    domainId: Option<string>, alias: Option<string>, publicKey: Option<string>, roles: ArrayField<string>,
    lock: Option<string>, description: Option<string>, loginIds: Option<seq<LoginInput>>)

  predicate Complete(req: CreateUserRequest) {
    Truthy(req.domainId) && Truthy(req.alias) && Truthy(req.publicKey) && NonEmptyArray(req.roles)
  }

  /** `loginIds.map(l => ({ id: l.id, providerId: l.providerId }))`. */
  function ProjectLogins(ls: seq<LoginInput>): (r: seq<LoginId>)
    ensures |r| == |ls|
    ensures forall i :: 0 <= i < |ls| ==> r[i] == LoginId(ls[i].id, ls[i].providerId)
  {
    seq(|ls|, i requires 0 <= i < |ls| => LoginId(ls[i].id, ls[i].providerId))
  }

  /**
   * The handler up to the SDK call: the message of the first failing guard,
   * or the envelope it proposes. `currentUser` stands for `getCurrentUser`.
   */
  function Post(req: CreateUserRequest, env: Environment, currentUser: string -> Author)
    : (r: Result<Envelope, string>)
    requires ValidClock(env)
    ensures !Truthy(req.domainId) ==> r == Failure("domainId is required")
    ensures Truthy(req.domainId) && !Truthy(req.alias) ==> r == Failure("alias is required")
    ensures Truthy(req.domainId) && Truthy(req.alias) && !Truthy(req.publicKey) ==> r == Failure("publicKey is required")
    ensures Truthy(req.domainId) && Truthy(req.alias) && Truthy(req.publicKey) && !NonEmptyArray(req.roles)
            ==> r == Failure("At least one role is required")
    ensures r.Success? <==> Complete(req)
    ensures r.Success? ==>
              && r.value.author == currentUser(req.domainId.value)
              && r.value.targetDomainId == req.domainId.value
              && r.value.expiryAt == ExpiryAt(env)
              && r.value.id == env.newId(0)
              && r.value.customProperties == NoProperties
              && r.value.payload.CreateUser?
              && r.value.payload.id == env.newId(1)
              && r.value.payload.alias == req.alias.value && r.value.payload.publicKey == req.publicKey.value
              && r.value.payload.roles == req.roles.items
              && r.value.payload.lock == (if Truthy(req.lock) then req.lock.value else "Unlocked")
              && (r.value.payload.description.Some? <==> Truthy(req.description))
              && (r.value.payload.description.Some? ==> r.value.payload.description == req.description)
              && (r.value.payload.loginIds.Some? <==> req.loginIds.Some? && |req.loginIds.value| > 0)
              && (r.value.payload.loginIds.Some? ==> r.value.payload.loginIds.value == ProjectLogins(req.loginIds.value))
              && r.value.description
                 == (if Truthy(req.description) then req.description.value else "Create user: " + req.alias.value)
  {
    if !Truthy(req.domainId) then Failure("domainId is required")
    else if !Truthy(req.alias) then Failure("alias is required")
    else if !Truthy(req.publicKey) then Failure("publicKey is required")
    else if !NonEmptyArray(req.roles) then Failure("At least one role is required")
    else
      var domainId, alias := req.domainId.value, req.alias.value;
      var loginIds := if req.loginIds.Some? && |req.loginIds.value| > 0 then Some(ProjectLogins(req.loginIds.value)) else None;
      Success(Envelope(
        currentUser(domainId), ExpiryAt(env), domainId, env.newId(0),
        CreateUser(env.newId(1), alias, req.publicKey.value, req.roles.items,
                   OrElse(req.lock, "Unlocked"), Spread(req.description), loginIds),
        OrElse(req.description, "Create user: " + alias),
        NoProperties))
  }

  /** The payload object's keys, in order: `description` and `loginIds` appear only when sent. */
  lemma CreateUserPayloadKeys(req: CreateUserRequest, env: Environment, currentUser: string -> Author)
    requires ValidClock(env) && Complete(req)
    ensures PayloadKeys(Post(req, env, currentUser).value.payload)
            == ["id", "alias", "publicKey", "roles", "lock"]
               + (if Truthy(req.description) then ["description"] else [])
               + ["customProperties"]
               + (if req.loginIds.Some? && |req.loginIds.value| > 0 then ["loginIds"] else [])
               + ["type"]
  {
    CreateUserKeys(Post(req, env, currentUser).value.payload);
  }
}
