/**
 * The "Propose" intent envelope every mutating route hands to the custody
 * service, its payload and operation variants, and the JSON object each of
 * them is written as. Keys are listed in the order the route handlers'
 * object literals give them; an optional key appears only when its field is
 * present, which is how a conditional spread `...(c && { k })` behaves.
 */
module Envelope {
  import opened Wrappers
  import opened JsSemantics
  import opened Json
  import opened IsoTime

  /** The user id hard-coded in the MPT and intent routes. */
  const CurrentUserId: string := "6ac20654-450e-29e4-65e2-1bdecb7db7c4"
  /** The domain id hard-coded in the payment, authorize and release routes. */
  const ConfiguredDomainId: string := "5cd224fe-193e-8bce-c94c-c6c05245e2d1"
  const TestnetLedgerId: string := "xrpl-testnet-august-2024"
  const MaximumFee: string := "10000000"

  datatype Author = Author(id: string, domainId: string)

  datatype LoginId = LoginId(id: string, providerId: string)

  /** `customProperties`: either `{}` or `{ property1: value }`. */
  datatype Properties = NoProperties | Property1(value: string)

  datatype Operation =
    | Payment(destinationAddress: string, amount: string, issuanceId: string)
    | MPTokenAuthorize(issuanceId: string)
    | MPTokenIssuanceCreate(assetScale: Option<int>, transferFee: Option<int>,
                            maximumAmount: Option<string>, flags: Option<int>, metadata: Option<string>)
    | MPTokenIssuanceSet(issuanceId: string, setFlags: int, holder: Option<string>)
    | MPTokenIssuanceDestroy(issuanceId: string)

  datatype Payload =
    | CreateAccount(id: string, alias: string, vaultId: string, keyStrategy: string, lock: string,
                    description: Option<string>, ledgerIds: Option<seq<string>>)
    | CreateUser(id: string, alias: string, publicKey: string, roles: seq<string>, lock: string,
                 description: Option<string>, loginIds: Option<seq<LoginId>>)
    | CreateTransactionOrder(id: string, accountId: string, operation: Operation,
                             orderDescription: string, orderProperties: Properties)
    | ReleaseQuarantinedTransfers(accountId: string, transferIds: seq<string>)

  /** The `request` object of a Propose body. */
  datatype Envelope = Envelope(author: Author, expiryAt: string, targetDomainId: string, id: string,
                               payload: Payload, description: string, customProperties: Properties)

  /** The clock and id source a handler reads: `now` in epoch milliseconds, `newId(k)` the k-th uuidv4() call. */
  datatype Environment = Environment(now: nat, newId: nat -> string)

  /** A clock reading one day before the largest Date, so that the expiry can still be rendered. */
  predicate ValidClock(env: Environment) {
    env.now + DayMs <= MaxTimeMs
  }

  /** `dayjs().add(1, "day").toISOString()` on a server whose local zone is UTC. */
  function ExpiryAt(env: Environment): (s: string)
    requires ValidClock(env)
    ensures |s| >= 24 && s[|s| - 1] == 'Z'
  {
    IsoInstant(env.now + DayMs)
  }

  /** The expiry reads back as exactly one day after the clock reading. */
  lemma ExpiryIsOneDayLater(env: Environment)
    requires ValidClock(env)
    requires DateOfDay((env.now + DayMs) / DayMs).year <= 9999
    ensures ReadsBackAs(ExpiryAt(env), env.now + DayMs)
  {
    ExpiryText(env);
    IsoRoundTrip(env.now + DayMs);
  }

  /** The expiry is the ISO text of the instant one day on; kept apart so the round trip does not unfold it. */
  lemma ExpiryText(env: Environment)
    requires ValidClock(env)
    ensures ExpiryAt(env) == IsoInstant(env.now + DayMs)
  {
  }

  /** The envelope of a transaction-order route, with its fixed ledger, author id and type. */
  function TransactionOrder(env: Environment, domainId: string, accountId: string, operation: Operation,
                            orderDescription: string, orderProperties: Properties,
                            description: string, customProperties: Properties): (e: Envelope)
    requires ValidClock(env)
    ensures e.author == Author(CurrentUserId, domainId) && e.targetDomainId == domainId
    ensures e.payload.CreateTransactionOrder? && e.payload.operation == operation
    ensures e.id == env.newId(0) && e.payload.id == env.newId(1)
  {
    Envelope(Author(CurrentUserId, domainId), ExpiryAt(env), domainId, env.newId(0),
             CreateTransactionOrder(env.newId(1), accountId, operation, orderDescription, orderProperties),
             description, customProperties)
  }

  // ---------------------------------------------------------------------------
  // JSON form

  function Str(s: string): Json {
    JString(s)
  }

  function Strings(xs: seq<string>): (j: Json)
    ensures j.JArray? && |j.items| == |xs|
    ensures forall i :: 0 <= i < |xs| ==> j.items[i] == JString(xs[i])
  {
    JArray(seq(|xs|, i requires 0 <= i < |xs| => JString(xs[i])))
  }

  /** The member `k: v` if the value is present, nothing otherwise. */
  function Optional(k: string, v: Option<Json>): (ms: seq<Member>)
    ensures v.Some? ==> ms == [Member(k, v.value)]
    ensures v.None? ==> ms == []
  {
    match v
    case Some(x) => [Member(k, x)]
    case None => []
  }

  function OptionalString(k: string, v: Option<string>): seq<Member> {
    Optional(k, if v.Some? then Some(JString(v.value)) else None)
  }

  function OptionalNumber(k: string, v: Option<int>): seq<Member> {
    Optional(k, if v.Some? then Some(JNumber(v.value)) else None)
  }

  function PropertiesJson(p: Properties): Json {
    match p
    case NoProperties => JObject([])
    case Property1(v) => JObject([Member("property1", Str(v))])
  }

  function LoginIdJson(l: LoginId): Json {
    JObject([Member("id", Str(l.id)), Member("providerId", Str(l.providerId))])
  }

  /** The `type` tag each ledger operation is written with. */
  function OperationType(op: Operation): string {
    match op
    case Payment(_, _, _) => "Payment"
    case MPTokenAuthorize(_) => "MPTokenAuthorize"
    case MPTokenIssuanceCreate(_, _, _, _, _) => "MPTokenIssuanceCreate"
    case MPTokenIssuanceSet(_, _, _) => "MPTokenIssuanceSet"
    case MPTokenIssuanceDestroy(_) => "MPTokenIssuanceDestroy"
  }

  /** The `type` tag each payload is written with. */
  function PayloadType(p: Payload): string {
    match p
    case CreateAccount(_, _, _, _, _, _, _) => "v0_CreateAccount"
    case CreateUser(_, _, _, _, _, _, _) => "v0_CreateUser"
    case CreateTransactionOrder(_, _, _, _, _) => "v0_CreateTransactionOrder"
    case ReleaseQuarantinedTransfers(_, _) => "v0_ReleaseQuarantinedTransfers"
  }

  /** The `operation` object of a transaction order: a tagged object carrying its variant's type. */
  function OperationJson(op: Operation): (j: Json)
    ensures j.JObject? && Member("type", JString(OperationType(op))) in j.members
  {
    match op
    case Payment(address, amount, issuanceId) =>
      JObject([Member("destination", JObject([Member("address", Str(address)), Member("type", Str("Address"))])),
               Member("amount", Str(amount)),
               Member("currency", JObject([Member("issuanceId", Str(issuanceId)), Member("type", Str("MultiPurposeToken"))])),
               Member("type", Str("Payment"))])
    case MPTokenAuthorize(issuanceId) =>
      JObject([Member("issuanceId", Str(issuanceId)), Member("flags", JArray([])), Member("type", Str("MPTokenAuthorize"))])
    case MPTokenIssuanceCreate(assetScale, transferFee, maximumAmount, flags, metadata) =>
      JObject([Member("type", Str("MPTokenIssuanceCreate"))]
              + OptionalNumber("assetScale", assetScale) + OptionalNumber("transferFee", transferFee)
              + OptionalString("maximumAmount", maximumAmount) + OptionalNumber("flags", flags)
              + OptionalString("metadata", metadata))
    case MPTokenIssuanceSet(issuanceId, flags, holder) =>
      JObject([Member("type", Str("MPTokenIssuanceSet")), Member("issuanceId", Str(issuanceId)),
               Member("flags", JNumber(flags))] + OptionalString("holder", holder))
    case MPTokenIssuanceDestroy(issuanceId) =>
      JObject([Member("type", Str("MPTokenIssuanceDestroy")), Member("issuanceId", Str(issuanceId))])
  }

  /**
   * The `payload` object: tagged with its variant's type as the last member, and
   * led by its own id in every variant except the release of transfers, which has none.
   */
  function PayloadJson(p: Payload): (j: Json)
    ensures j.JObject? && |j.members| > 0 && j.members[|j.members| - 1] == Member("type", JString(PayloadType(p)))
    ensures !p.ReleaseQuarantinedTransfers? ==> j.members[0] == Member("id", JString(p.id))
    ensures p.ReleaseQuarantinedTransfers? ==> "id" !in Keys(j.members)
  {
    match p
    case CreateAccount(id, alias, vaultId, keyStrategy, lock, description, ledgerIds) =>
      JObject([Member("id", Str(id)), Member("alias", Str(alias)),
               Member("providerDetails", JObject([Member("vaultId", Str(vaultId)),
                                                  Member("keyStrategy", Str(keyStrategy)),
                                                  Member("type", Str("Vault"))])),
               Member("lock", Str(lock))]
              + OptionalString("description", description)
              + Optional("ledgerIds", if ledgerIds.Some? then Some(Strings(ledgerIds.value)) else None)
              + [Member("customProperties", JObject([])), Member("type", Str("v0_CreateAccount"))])
    case CreateUser(id, alias, publicKey, roles, lock, description, loginIds) =>
      JObject([Member("id", Str(id)), Member("alias", Str(alias)), Member("publicKey", Str(publicKey)),
               Member("roles", Strings(roles)), Member("lock", Str(lock))]
              + OptionalString("description", description)
              + [Member("customProperties", JObject([]))]
              + Optional("loginIds", if loginIds.Some? then Some(LoginIdsJson(loginIds.value)) else None)
              + [Member("type", Str("v0_CreateUser"))])
    case CreateTransactionOrder(id, accountId, operation, orderDescription, orderProperties) =>
      JObject([Member("id", Str(id)), Member("ledgerId", Str(TestnetLedgerId)), Member("accountId", Str(accountId)),
               Member("parameters", JObject([Member("type", Str("XRPL")),
                                             Member("feeStrategy", JObject([Member("priority", Str("Medium")),
                                                                            Member("type", Str("Priority"))])),
                                             Member("maximumFee", Str(MaximumFee)),
                                             Member("memos", JArray([])),
                                             Member("operation", OperationJson(operation))])),
               Member("description", Str(orderDescription)),
               Member("customProperties", PropertiesJson(orderProperties)),
               Member("type", Str("v0_CreateTransactionOrder"))])
    case ReleaseQuarantinedTransfers(accountId, transferIds) =>
      JObject([Member("accountId", Str(accountId)), Member("transferIds", Strings(transferIds)),
               Member("type", Str("v0_ReleaseQuarantinedTransfers"))])
  }

  function LoginIdsJson(ls: seq<LoginId>): (j: Json)
    ensures j.JArray? && |j.items| == |ls|
    ensures forall i :: 0 <= i < |ls| ==> j.items[i] == LoginIdJson(ls[i])
  {
    JArray(seq(|ls|, i requires 0 <= i < |ls| => LoginIdJson(ls[i])))
  }

  /** The body passed to `custody.intents.propose`: `{ request: ... }`. */
  function ProposeBodyJson(e: Envelope): (j: Json)
    ensures j.JObject? && Keys(j.members) == ["request"] && j.members[0].value.JObject?
    ensures Member("payload", PayloadJson(e.payload)) in j.members[0].value.members
    ensures Member("type", JString("Propose")) in j.members[0].value.members
  {
    JObject([Member("request", JObject(RequestMembers(e, PayloadJson(e.payload))))])
  }

  /** The members of the `request` object, in the order the handlers write them, around the payload's JSON. */
  function RequestMembers(e: Envelope, payload: Json): seq<Member> {
    [Member("author", JObject([Member("id", Str(e.author.id)), Member("domainId", Str(e.author.domainId))])),
     Member("expiryAt", Str(e.expiryAt)),
     Member("targetDomainId", Str(e.targetDomainId)),
     Member("id", Str(e.id)),
     Member("payload", payload),
     Member("description", Str(e.description)),
     Member("customProperties", PropertiesJson(e.customProperties)),
     Member("type", Str("Propose"))]
  }

  /** The member list of a JSON object (empty for any other value). */
  function MembersOf(j: Json): seq<Member> {
    if j.JObject? then j.members else []
  }

  function PayloadKeys(p: Payload): seq<string> {
    Keys(MembersOf(PayloadJson(p)))
  }

  function OperationKeys(op: Operation): seq<string> {
    Keys(MembersOf(OperationJson(op)))
  }

  lemma KeysOfOptional(k: string, v: Option<Json>)
    ensures Keys(Optional(k, v)) == if v.Some? then [k] else []
  {
  }

  /** The keys of a `v0_CreateAccount` payload object, in the order the handler writes them. */
  lemma CreateAccountKeys(p: Payload)
    requires p.CreateAccount?
    ensures PayloadKeys(p)
            == ["id", "alias", "providerDetails", "lock"]
               + (if p.description.Some? then ["description"] else [])
               + (if p.ledgerIds.Some? then ["ledgerIds"] else [])
               + ["customProperties", "type"]
  {
    var head := [Member("id", Str(p.id)), Member("alias", Str(p.alias)),
                 Member("providerDetails", JObject([Member("vaultId", Str(p.vaultId)),
                                                    Member("keyStrategy", Str(p.keyStrategy)),
                                                    Member("type", Str("Vault"))])),
                 Member("lock", Str(p.lock))];
    var desc := OptionalString("description", p.description);
    var ledgers := Optional("ledgerIds", if p.ledgerIds.Some? then Some(Strings(p.ledgerIds.value)) else None);
    var tail := [Member("customProperties", JObject([])), Member("type", Str("v0_CreateAccount"))];
    assert MembersOf(PayloadJson(p)) == head + desc + ledgers + tail;
    assert Keys(head) == ["id", "alias", "providerDetails", "lock"];
    assert Keys(tail) == ["customProperties", "type"];
    KeysOfOptional("description", if p.description.Some? then Some(JString(p.description.value)) else None);
    KeysOfOptional("ledgerIds", if p.ledgerIds.Some? then Some(Strings(p.ledgerIds.value)) else None);
    KeysAppend(head, desc);
    KeysAppend(head + desc, ledgers);
    KeysAppend(head + desc + ledgers, tail);
  }

  /** The keys of a `v0_CreateUser` payload object, in the order the handler writes them. */
  lemma CreateUserKeys(p: Payload)
    requires p.CreateUser?
    ensures PayloadKeys(p)
            == ["id", "alias", "publicKey", "roles", "lock"]
               + (if p.description.Some? then ["description"] else [])
               + ["customProperties"]
               + (if p.loginIds.Some? then ["loginIds"] else [])
               + ["type"]
  {
    var head := [Member("id", Str(p.id)), Member("alias", Str(p.alias)), Member("publicKey", Str(p.publicKey)),
                 Member("roles", Strings(p.roles)), Member("lock", Str(p.lock))];
    var desc := OptionalString("description", p.description);
    var props := [Member("customProperties", JObject([]))];
    var logins := Optional("loginIds", if p.loginIds.Some? then Some(LoginIdsJson(p.loginIds.value)) else None);
    var tail := [Member("type", Str("v0_CreateUser"))];
    assert MembersOf(PayloadJson(p)) == head + desc + props + logins + tail;
    KeysOfFive(head, desc, props, logins, tail);
    assert Keys(head) == ["id", "alias", "publicKey", "roles", "lock"];
    assert Keys(props) == ["customProperties"] && Keys(tail) == ["type"];
    KeysOfOptional("description", if p.description.Some? then Some(JString(p.description.value)) else None);
    KeysOfOptional("loginIds", if p.loginIds.Some? then Some(LoginIdsJson(p.loginIds.value)) else None);
  }

  lemma KeysOfFive(a: seq<Member>, b: seq<Member>, c: seq<Member>, d: seq<Member>, e: seq<Member>)
    ensures Keys(a + b + c + d + e) == Keys(a) + Keys(b) + Keys(c) + Keys(d) + Keys(e)
  {
    KeysAppend(a, b);
    KeysAppend(a + b, c);
    KeysAppend(a + b + c, d);
    KeysAppend(a + b + c + d, e);
  }

  /** The keys of an `MPTokenIssuanceCreate` operation object: the type, then each present field in order. */
  lemma IssuanceCreateKeys(op: Operation)
    requires op.MPTokenIssuanceCreate?
    ensures OperationKeys(op)
            == ["type"]
               + (if op.assetScale.Some? then ["assetScale"] else [])
               + (if op.transferFee.Some? then ["transferFee"] else [])
               + (if op.maximumAmount.Some? then ["maximumAmount"] else [])
               + (if op.flags.Some? then ["flags"] else [])
               + (if op.metadata.Some? then ["metadata"] else [])
  {
    var head := [Member("type", Str("MPTokenIssuanceCreate"))];
    var a := OptionalNumber("assetScale", op.assetScale);
    var b := OptionalNumber("transferFee", op.transferFee);
    var c := OptionalString("maximumAmount", op.maximumAmount);
    var d := OptionalNumber("flags", op.flags);
    var e := OptionalString("metadata", op.metadata);
    assert MembersOf(OperationJson(op)) == head + a + b + c + d + e;
    KeysOfOptional("assetScale", if op.assetScale.Some? then Some(JNumber(op.assetScale.value)) else None);
    KeysOfOptional("transferFee", if op.transferFee.Some? then Some(JNumber(op.transferFee.value)) else None);
    KeysOfOptional("maximumAmount", if op.maximumAmount.Some? then Some(JString(op.maximumAmount.value)) else None);
    KeysOfOptional("flags", if op.flags.Some? then Some(JNumber(op.flags.value)) else None);
    KeysOfOptional("metadata", if op.metadata.Some? then Some(JString(op.metadata.value)) else None);
    KeysOfFive(head, a, b, c, d);
    KeysAppend(head + a + b + c + d, e);
    assert Keys(head) == ["type"];
  }

  /** The keys of a `v0_CreateTransactionOrder` payload object, in the order the handlers write them. */
  lemma TransactionOrderKeys(p: Payload)
    requires p.CreateTransactionOrder?
    ensures PayloadKeys(p) == OrderKeyOrder
  {
    var ms := MembersOf(PayloadJson(p));
    assert |ms| == 7;
    assert ms[0].key == "id" && ms[1].key == "ledgerId" && ms[2].key == "accountId" && ms[3].key == "parameters";
    assert ms[4].key == "description" && ms[5].key == "customProperties" && ms[6].key == "type";
  }

  const OrderKeyOrder: seq<string> :=
    ["id", "ledgerId", "accountId", "parameters", "description", "customProperties", "type"]

  /** The order keys at positions 1, 2, 3 and 6 do not occur earlier. */
  lemma OrderKeyLater(i: nat)
    requires i == 1 || i == 2 || i == 3 || i == 6
    ensures OrderKeyOrder[i] !in OrderKeyOrder[..i]
  {
  }

  /**
   * Every transaction order names the same ledger and carries the same XRPL
   * parameters (medium-priority fee strategy, fee cap, no memos); only the
   * account, the operation and the descriptions vary.
   */
  lemma TransactionOrderFixedFields(p: Payload)
    requires p.CreateTransactionOrder?
    ensures var ms := MembersOf(PayloadJson(p));
            && Lookup(ms, "ledgerId") == Some(JString("xrpl-testnet-august-2024"))
            && Lookup(ms, "accountId") == Some(JString(p.accountId))
            && Lookup(ms, "type") == Some(JString("v0_CreateTransactionOrder"))
            && Lookup(ms, "parameters")
               == Some(JObject([Member("type", JString("XRPL")),
                                Member("feeStrategy", JObject([Member("priority", JString("Medium")),
                                                               Member("type", JString("Priority"))])),
                                Member("maximumFee", JString("10000000")),
                                Member("memos", JArray([])),
                                Member("operation", OperationJson(p.operation))]))
  {
    var ms := MembersOf(PayloadJson(p));
    TransactionOrderKeys(p);
    OrderKeyLater(1);
    OrderKeyLater(2);
    OrderKeyLater(3);
    OrderKeyLater(6);
    KeysPrefix(ms, 1);
    KeysPrefix(ms, 2);
    KeysPrefix(ms, 3);
    KeysPrefix(ms, 6);
    LookupFirstAt(ms, 1);
    LookupFirstAt(ms, 2);
    LookupFirstAt(ms, 3);
    LookupFirstAt(ms, 6);
  }

  /**
   * The body handed to the custody service: a single `request` object whose
   * members come in a fixed order, typed "Propose", carrying the author, the
   * target domain and the payload's JSON.
   */
  lemma ProposeBodyShape(e: Envelope)
    ensures var req := Lookup(MembersOf(ProposeBodyJson(e)), "request");
            && req.Some? && req.value.JObject?
            && Keys(req.value.members) == RequestKeyOrder
            && Lookup(req.value.members, "type") == Some(JString("Propose"))
            && Lookup(req.value.members, "payload") == Some(PayloadJson(e.payload))
            && Lookup(req.value.members, "targetDomainId") == Some(JString(e.targetDomainId))
  {
    var pj := PayloadJson(e.payload);
    RequestShape(e, pj);
    assert MembersOf(ProposeBodyJson(e)) == [Member("request", JObject(RequestMembers(e, pj)))];
  }

  lemma RequestShape(e: Envelope, pj: Json)
    ensures var ms := RequestMembers(e, pj);
            && Keys(ms) == RequestKeyOrder
            && Lookup(ms, "type") == Some(JString("Propose"))
            && Lookup(ms, "payload") == Some(pj)
            && Lookup(ms, "targetDomainId") == Some(JString(e.targetDomainId))
  {
    var ms := RequestMembers(e, pj);
    RequestKeys(e, pj);
    RequestKeyLater(7);
    RequestKeyLater(4);
    RequestKeyLater(2);
    KeysPrefix(ms, 7);
    KeysPrefix(ms, 4);
    KeysPrefix(ms, 2);
    LookupFirstAt(ms, 7);
    LookupFirstAt(ms, 4);
    LookupFirstAt(ms, 2);
  }

  const RequestKeyOrder: seq<string> :=
    ["author", "expiryAt", "targetDomainId", "id", "payload", "description", "customProperties", "type"]

  lemma RequestKeys(e: Envelope, pj: Json)
    ensures Keys(RequestMembers(e, pj)) == RequestKeyOrder
  {
    var ms := RequestMembers(e, pj);
    assert ms[0].key == "author" && ms[1].key == "expiryAt" && ms[2].key == "targetDomainId" && ms[3].key == "id";
    assert ms[4].key == "payload" && ms[5].key == "description" && ms[6].key == "customProperties" && ms[7].key == "type";
  }

  /** The request keys at positions 2, 4 and 7 do not occur earlier (their lengths differ from every earlier one). */
  lemma RequestKeyLater(i: nat)
    requires i == 2 || i == 4 || i == 7
    ensures RequestKeyOrder[i] !in RequestKeyOrder[..i]
  {
  }

  /** The keys of an `MPTokenIssuanceSet` operation object: `holder` only when present. */
  lemma IssuanceSetKeys(op: Operation)
    requires op.MPTokenIssuanceSet?
    ensures OperationKeys(op) == ["type", "issuanceId", "flags"] + (if op.holder.Some? then ["holder"] else [])
  {
    var head := [Member("type", Str("MPTokenIssuanceSet")), Member("issuanceId", Str(op.issuanceId)),
                 Member("flags", JNumber(op.setFlags))];
    var h := OptionalString("holder", op.holder);
    assert MembersOf(OperationJson(op)) == head + h;
    assert Keys(head) == ["type", "issuanceId", "flags"];
    KeysOfOptional("holder", if op.holder.Some? then Some(JString(op.holder.value)) else None);
    KeysAppend(head, h);
  }
}
