/**
 * The session logic of the JWT auth provider
 * (src/auth/context/jwt/auth-provider.jsx): the `{user, loading}` state,
 * what `checkUserSession` leaves in it, and the status and user the context
 * exposes. The stored token and the outcome of the "who am I" request are
 * parameters; storing the session and logging are left to the caller.
 */
module AuthProvider {
  import opened JsValue

  /** How the `axiosInstance.get(AUTH_ENDPOINTS.ME)` call settles: with a
      response value, or by rejecting (any exception in the try block). */
  datatype MeOutcome = Resolved(res: Value) | Rejected

  datatype Status = Loading | Authenticated | Unauthenticated

  /** The value the context exposes, without the callback. */
  datatype ContextValue = ContextValue(user: Value, loading: bool, authenticated: bool, unauthenticated: bool)

  /** `sessionStorage.getItem(key)` gives a string or null (None); `if (accessToken)`. */
  predicate HasToken(token: Option<string>) { token.Some? && token.value != "" }

  /** `const { user = {} } = res?.data?.data || {}`: the default applies only
      when `user` is undefined. */
  function FetchedUser(res: Value): (user: Value)
    ensures OptGet(Or(OptGet(OptGet(res, "data"), "data"), Obj([])), "user").Undefined? ==> user == Obj([])
    ensures !OptGet(Or(OptGet(OptGet(res, "data"), "data"), Obj([])), "user").Undefined? ==>
      user == OptGet(Or(OptGet(OptGet(res, "data"), "data"), Obj([])), "user")
  {
    var user := OptGet(Or(OptGet(OptGet(res, "data"), "data"), Obj([])), "user");
    if user.Undefined? then Obj([]) else user
  }

  /** The user `checkUserSession` stores: with a token and a response whose
      `success` is truthy, a copy of the fetched user with `accessToken:
      true`; null on every other path, including a rejected request. */
  function SessionUser(token: Option<string>, me: MeOutcome): (user: Value)
    ensures !HasToken(token) ==> user == Null
    ensures me.Rejected? ==> user == Null
    ensures Truthy(user) <==> HasToken(token) && me.Resolved? && Truthy(OptGet(OptGet(me.res, "data"), "success"))
    ensures Truthy(user) ==>
      && user.Obj? && OptGet(user, "accessToken") == Bool(true)
      && forall k :: k != "accessToken" ==> Lookup(user.props, k) == LastValue(OwnProps(FetchedUser(me.res)), k)
    ensures !Truthy(user) ==> user == Null
  {
    if !HasToken(token) then Null
    else
      match me
      case Rejected => Null
      case Resolved(res) =>
        if Truthy(OptGet(OptGet(res, "data"), "success")) then
          var copy := Assign([], OwnProps(FetchedUser(res)));
          forall k | k != "accessToken"
            ensures Lookup(SetProp(copy, "accessToken", Bool(true)), k) == LastValue(OwnProps(FetchedUser(res)), k)
          {
            LookupSetProp(copy, "accessToken", Bool(true), k);
            LookupAssign([], OwnProps(FetchedUser(res)), k);
          }
          LookupSetProp(copy, "accessToken", Bool(true), "accessToken");
          Obj(SetProp(copy, "accessToken", Bool(true)))
        else Null
  }

  /** `state.loading ? 'loading' : state.user ? 'authenticated' : 'unauthenticated'` */
  function StatusOf(user: Value, loading: bool): (s: Status)
    ensures s == Loading <==> loading
    ensures s == Authenticated <==> !loading && Truthy(user)
    ensures s == Unauthenticated <==> !loading && !Truthy(user)
  {
    if loading then Loading else if Truthy(user) then Authenticated else Unauthenticated
  }

  /** `state.user ? { ...state.user, role: state.user?.role ?? 'admin' } : null` */
  function ExposedUser(user: Value): (u: Value)
    ensures u.Null? <==> !Truthy(user)
    ensures Truthy(user) ==>
      && u.Obj?
      && OptGet(u, "role") == (if Nullish(OptGet(user, "role")) then Str("admin") else OptGet(user, "role"))
      && forall k :: k != "role" ==> Lookup(u.props, k) == LastValue(OwnProps(user), k)
  {
    if Truthy(user) then
      var role := Coalesce(OptGet(user, "role"), Str("admin"));
      var copy := Assign([], OwnProps(user));
      forall k | k != "role"
        ensures Lookup(SetProp(copy, "role", role), k) == LastValue(OwnProps(user), k)
      {
        LookupSetProp(copy, "role", role, k);
        LookupAssign([], OwnProps(user), k);
      }
      LookupSetProp(copy, "role", role, "role");
      Obj(SetProp(copy, "role", role))
    else Null
  }

  /** The memoized context value: the three flags compare the status. */
  function Context(user: Value, loading: bool): (c: ContextValue)
    ensures c.user == ExposedUser(user)
    ensures (if c.loading then 1 else 0) + (if c.authenticated then 1 else 0) + (if c.unauthenticated then 1 else 0) == 1
    ensures c.loading <==> loading
    ensures c.authenticated <==> !loading && Truthy(user)
  {
    var status := StatusOf(user, loading);
    ContextValue(ExposedUser(user), status == Loading, status == Authenticated, status == Unauthenticated)
  }

  /** The provider's `{user, loading}` state. */
  class SessionState {
    var user: Value
    var loading: bool

    /** `useSetState({ user: null, loading: true })` */
    constructor ()
      ensures user == Null && loading
      ensures StatusOf(user, loading) == Loading
    {
      user, loading := Null, true;
    }

    /** `checkUserSession`: every path ends with `loading: false`. */
    method CheckUserSession(token: Option<string>, me: MeOutcome)
      modifies this
      ensures user == SessionUser(token, me) && !loading
    {
      if HasToken(token) {
        match me
        case Rejected =>
          user, loading := Null, false;
        case Resolved(res) =>
          if Truthy(OptGet(OptGet(res, "data"), "success")) {
            user := Obj(SetProp(Assign([], OwnProps(FetchedUser(res))), "accessToken", Bool(true)));
          } else {
            user := Null;
          }
          loading := false;
      } else {
        user, loading := Null, false;
      }
    }
  }

  /** After a session check the status is never loading: authenticated
      exactly when a token exists and the request reported success. */
  lemma SessionStatus(token: Option<string>, me: MeOutcome)
    ensures StatusOf(SessionUser(token, me), false) != Loading
    ensures StatusOf(SessionUser(token, me), false) == Authenticated
        <==> HasToken(token) && me.Resolved? && Truthy(OptGet(OptGet(me.res, "data"), "success"))
  {
  }

  /** Without a token the request outcome does not matter. */
  lemma NoTokenIgnoresRequest(token: Option<string>, me1: MeOutcome, me2: MeOutcome)
    requires !HasToken(token)
    ensures SessionUser(token, me1) == SessionUser(token, me2) == Null
  {
  }

  /** The response of a successful "who am I" request for a user that has
      only a name. */
  function SignedInResponse(name: Value): Value
  {
    Obj([Prop("data", Obj([Prop("success", Bool(true)), Prop("data", Obj([Prop("user", Obj([Prop("name", name)]))]))]))])
  }

  /** Such a response yields a signed-in user without a role. */
  lemma SignedInSession(name: Value)
    ensures Truthy(SessionUser(Some("jwt"), Resolved(SignedInResponse(name))))
    ensures Nullish(OptGet(SessionUser(Some("jwt"), Resolved(SignedInResponse(name))), "role"))
  {
    var body := Obj([Prop("success", Bool(true)), Prop("data", Obj([Prop("user", Obj([Prop("name", name)]))]))]);
    var data := Obj([Prop("user", Obj([Prop("name", name)]))]);
    assert OptGet(SignedInResponse(name), "data") == body;
    assert OptGet(body, "success") == Bool(true);
    assert OptGet(body, "data") == data by {
      assert Lookup(body.props, "data") == Lookup(body.props[1..], "data");
    }
    assert OptGet(data, "user") == Obj([Prop("name", name)]);
    assert FetchedUser(SignedInResponse(name)) == Obj([Prop("name", name)]);
    assert HasToken(Some("jwt"));
    var user := SessionUser(Some("jwt"), Resolved(SignedInResponse(name)));
    assert user.Obj?;
    assert OwnProps(FetchedUser(SignedInResponse(name))) == [Prop("name", name)];
    assert LastValue([Prop("name", name)], "role") == None by {
      assert "name" != "role";
      assert [Prop("name", name)][..0] == [];
    }
    assert "role" != "accessToken";
    assert Lookup(user.props, "role") == None;
    assert OptGet(user, "role") == Undefined;
  }

  /** A successful check with a user that has no role exposes role 'admin'. */
  method SignedInScenario(name: Value) returns (c: ContextValue)
    ensures c.authenticated && !c.loading
    ensures OptGet(c.user, "role") == Str("admin")
  {
    var s := new SessionState();
    s.CheckUserSession(Some("jwt"), Resolved(SignedInResponse(name)));
    SignedInSession(name);
    c := Context(s.user, s.loading);
  }
}
