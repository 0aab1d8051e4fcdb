/**
 * The user-create form: role checkboxes and the custom-role box, the login-id
 * rows, the submit guard, and the body sent to POST /api/users/create.
 */
module UserCreateTab {
  import opened Wrappers
  import opened JsSemantics
  import opened ListEdits
  import opened Envelope
  import UsersCreateRoute

  /** The roles ticked when the form opens. */
  const InitialRoles: seq<string> := ["user"]

  const NoRoleError: string := "At least one role must be selected"

  /** The provider a new login-id row starts with. */
  const DefaultProvider: string := "harmonize"

  // ---------------------------------------------------------------------------
  // Roles

  /** The ticked roles and what is typed in the custom-role box. */
  datatype RoleState = RoleState(roles: seq<string>, input: string)

  /** The role a custom entry stands for: lower-cased, then trimmed. */
  function CustomRole(input: string): (r: string)
    ensures r == Trim(ToLowerAscii(input))
    ensures forall k :: 0 <= k < |r| ==> !('A' <= r[k] <= 'Z')
  {
    var lowered := ToLowerAscii(input);
    var r := Trim(lowered);
    assert forall k :: 0 <= k < |r| ==> r[k] in lowered;
    r
  }

  /** The custom role is the typed text without its blank ends, lower-cased. */
  lemma CustomRoleOfInput(input: string) returns (a: nat, b: nat)
    ensures a <= b <= |input| && CustomRole(input) == ToLowerAscii(input[a..b])
    ensures IsBlank(input[..a]) && IsBlank(input[b..])
  {
    var lowered := ToLowerAscii(input);
    a, b := TrimCuts(lowered);
    LowerCuts(input, a, b);
  }

  /**
   * Enter in the custom-role box: a non-empty role not yet ticked is appended
   * and the box is cleared; otherwise nothing changes, the text included.
   */
  function EnterCustomRole(s: RoleState): (r: RoleState)
    ensures var v := CustomRole(s.input);
            v != "" && v !in s.roles ==> r == RoleState(s.roles + [v], "")
    ensures var v := CustomRole(s.input);
            !(v != "" && v !in s.roles) ==> r == s
  {
    var v := CustomRole(s.input);
    if v != "" && v !in s.roles then RoleState(AppendIfNew(s.roles, v, true), "") else s
  }

  /** handleRoleToggle. */
  function ToggleRole(s: RoleState, role: string): (r: RoleState)
    ensures role in r.roles <==> role !in s.roles
    ensures forall y :: y != role ==> (y in r.roles <==> y in s.roles)
    ensures r.input == s.input
  {
    s.(roles := Toggle(s.roles, role))
  }

  /** Neither the checkboxes nor the custom box ever list a role twice. */
  lemma RoleEditsKeepDistinct(s: RoleState, role: string)
    requires NoDup(s.roles)
    ensures NoDup(ToggleRole(s, role).roles)
    ensures NoDup(EnterCustomRole(s).roles)
  {
    ToggleKeepsNoDup(s.roles, role);
  }

  /** A role entered twice in a row (the text re-typed after the box cleared) is listed once. */
  lemma {:induction false} SameCustomRoleOnce(s: RoleState)
    ensures var once := EnterCustomRole(s);
            EnterCustomRole(once.(input := s.input)).roles == once.roles
  {
    var v := CustomRole(s.input);
    var once := EnterCustomRole(s);
    if v != "" && v !in s.roles {
      assert v in once.roles;
    }
  }

  // ---------------------------------------------------------------------------
  // Login ids

  /** addLoginId: a row with no id yet and the default provider. */
  function AddLoginId(ls: seq<LoginId>): (r: seq<LoginId>)
    ensures |r| == |ls| + 1 && r[..|ls|] == ls && r[|ls|] == LoginId("", DefaultProvider)
  {
    ls + [LoginId("", DefaultProvider)]
  }

  datatype LoginField = Id | ProviderId

  function WithLoginField(l: LoginId, field: LoginField, value: string): LoginId {
    match field
    case Id => l.(id := value)
    case ProviderId => l.(providerId := value)
  }

  /**
   * updateLoginId: copy the rows, assign one field of one row, store the copy.
   * An index with no row throws before anything is stored.
   */
  method UpdateLoginId(ls: seq<LoginId>, index: int, field: LoginField, value: string) returns (r: seq<LoginId>)
    ensures |r| == |ls|
    ensures forall i :: 0 <= i < |ls| && i != index ==> r[i] == ls[i]
    ensures 0 <= index < |ls| ==> r[index] == WithLoginField(ls[index], field, value)
  {
    if !(0 <= index < |ls|) {
      return ls;
    }
    var copy := new LoginId[|ls|](i requires 0 <= i < |ls| => ls[i]);
    copy[index] := WithLoginField(copy[index], field, value);
    r := copy[..];
  }

  /** `loginIds.filter(l => l.id)`. */
  function WithIds(ls: seq<LoginId>): (r: seq<LoginId>)
    ensures forall x :: x in r <==> x in ls && x.id != ""
    ensures |r| <= |ls|
  {
    if ls == [] then []
    else (if ls[0].id != "" then [ls[0]] else []) + WithIds(ls[1..])
  }

  /** The filter keeps the rows' order. */
  lemma {:induction false} WithIdsAppend(a: seq<LoginId>, b: seq<LoginId>)
    ensures WithIds(a + b) == WithIds(a) + WithIds(b)
  {
    if a != [] {
      assert (a + b)[0] == a[0] && (a + b)[1..] == a[1..] + b;
      WithIdsAppend(a[1..], b);
    } else {
      assert a + b == b;
    }
  }

  /** A freshly added row is not sent until it gets an id. */
  lemma AddLoginIdSendsNothingNew(ls: seq<LoginId>)
    ensures WithIds(AddLoginId(ls)) == WithIds(ls)
  {
    WithIdsAppend(ls, [LoginId("", DefaultProvider)]);
  }

  /** removeLoginId drops one row; dropping a row with no id changes nothing that is sent. */
  lemma RemoveBlankLoginIdSendsSame(ls: seq<LoginId>, index: int)
    requires 0 <= index < |ls| && ls[index].id == ""
    ensures WithIds(RemoveAt(ls, index)) == WithIds(ls)
  {
    var before, row, after := ls[..index], ls[index], ls[index + 1..];
    assert ls == before + ([row] + after);
    WithIdsAppend(before, [row] + after);
    WithIdsSkipsBlank(row, after);
    WithIdsAppend(before, after);
  }

  lemma WithIdsSkipsBlank(row: LoginId, rest: seq<LoginId>)
    requires row.id == ""
    ensures WithIds([row] + rest) == WithIds(rest)
  {
    assert ([row] + rest)[0] == row && ([row] + rest)[1..] == rest;
  }

  // ---------------------------------------------------------------------------
  // Submitting

  datatype UserForm = UserForm(
    alias: string, publicKey: string, roles: RoleState, lock: string, description: string, loginIds: seq<LoginId>)

  function InitialForm(): (form: UserForm)
    ensures form.roles.roles == InitialRoles && NoDup(form.roles.roles)
    ensures form.lock == "Unlocked" && form.loginIds == []
  {
    UserForm("", "", RoleState(InitialRoles, ""), "Unlocked", "", [])
  }

  /** A login row as the route receives it: the two string fields and nothing else. */
  function AsInput(l: LoginId): UsersCreateRoute.LoginInput {
    UsersCreateRoute.LoginInput(l.id, l.providerId, [])
  }

  /** `loginIds.length > 0 ? loginIds.filter(l => l.id) : undefined`. */
  function SentLogins(ls: seq<LoginId>): (r: Option<seq<UsersCreateRoute.LoginInput>>)
    ensures r.None? <==> ls == []
    ensures r.Some? ==> |r.value| == |WithIds(ls)|
    ensures r.Some? ==> forall i :: 0 <= i < |r.value| ==> r.value[i] == AsInput(WithIds(ls)[i])
  {
    if |ls| > 0 then Some(seq(|WithIds(ls)|, i requires 0 <= i < |WithIds(ls)| => AsInput(WithIds(ls)[i]))) else None
  }

  /** handleSubmit: with no role ticked it stops with an error; otherwise the body it posts. */
  function Submit(form: UserForm, domainId: string): (r: Result<UsersCreateRoute.CreateUserRequest, string>)
    ensures form.roles.roles == [] <==> r == Failure(NoRoleError)
    ensures r.Success? ==> r.value.roles == Elements(form.roles.roles)
    ensures r.Success? ==> (r.value.description.Some? <==> form.description != "")
    ensures r.Success? ==> (r.value.loginIds.Some? <==> form.loginIds != [])
  {
    if |form.roles.roles| == 0 then Failure(NoRoleError)
    else
      Success(UsersCreateRoute.CreateUserRequest(
        Some(domainId), Some(form.alias), Some(form.publicKey), Elements(form.roles.roles), Some(form.lock),
        NonEmpty(form.description), SentLogins(form.loginIds)))
  }

  /** The submit button: enabled unless loading, or the domain, alias, public key or roles are missing. */
  function SubmitEnabled(loading: bool, domainId: string, form: UserForm): (r: bool)
    ensures r <==> !loading && Submit(form, domainId).Success? && UsersCreateRoute.Complete(Submit(form, domainId).value)
  {
    !loading && domainId != "" && form.alias != "" && form.publicKey != "" && |form.roles.roles| > 0
  }

  /**
   * An enabled submit proposes a user with exactly the ticked roles, the
   * chosen lock, the description only when typed, and the login rows that
   * have an id, in order, as `{id, providerId}`; the `loginIds` key is left
   * out when no row has an id.
   */
  lemma SubmittedUser(form: UserForm, loading: bool, domainId: string, env: Environment,
                      currentUser: string -> Author)
    requires ValidClock(env) && SubmitEnabled(loading, domainId, form)
    ensures Submit(form, domainId).Success?
    ensures var r := UsersCreateRoute.Post(Submit(form, domainId).value, env, currentUser);
            && r.Success?
            && r.value.targetDomainId == domainId
            && r.value.payload.alias == form.alias && r.value.payload.publicKey == form.publicKey
            && r.value.payload.roles == form.roles.roles
            && r.value.payload.lock == (if form.lock != "" then form.lock else "Unlocked")
            && r.value.payload.description == NonEmpty(form.description)
            && (r.value.payload.loginIds.Some? <==> WithIds(form.loginIds) != [])
            && (r.value.payload.loginIds.Some? ==> r.value.payload.loginIds.value == WithIds(form.loginIds))
  {
    var req := Submit(form, domainId).value;
    if form.loginIds != [] && WithIds(form.loginIds) != [] {
      var sent := UsersCreateRoute.ProjectLogins(req.loginIds.value);
      assert sent == WithIds(form.loginIds);
    }
  }
}
