/**
 * The auth state: who is logged in, the token, whether a login or
 * registration is in flight and its error, derived at start-up from storage
 * and changed by the logout action and the login/register thunks' pending,
 * fulfilled and rejected actions. JSON.parse and JSON.stringify of the stored
 * user are parameters (`parse` answers None where JSON.parse throws).
 */
module AuthSlice {
  import opened Js
  import opened WebStorage
  import opened ServerError

  datatype Json =
    | JNull
    | JBool(b: bool)
    | JNumber(n: int)
    | JString(s: string)
    | JArray(elems: seq<Json>)
    | JObject(props: seq<(string, Json)>)

  const LoginFailed := "Failed to login"
  const RegisterFailed := "Failed to register"

  /** The login endpoint's answer; an `access`, `refresh` or `token` the body lacks is None (undefined). */
  datatype LoginPayload = LoginPayload(access: Option<string>, refresh: Option<string>, user: Json, token: Option<string>)

  datatype LoginArgs = LoginArgs(username: string, password: string)

  datatype Profile = Profile(phone_number: string, role: string)

  /** What the registration form hands to the register thunk. */
  datatype RegisterArgs = RegisterArgs(username: string, email: string, password: string, profile: Profile)

  /** What the register thunk posts. */
  datatype RegisterBody = RegisterBody(username: string, email: string, password: string)

  /** The backend's answer to a thunk's POST: its data, or a failure with the body if one came back. */
  datatype Reply<T> = Ok(data: T) | Failed(body: Option<Body>)

  datatype ThunkResult<T> = Fulfilled(payload: T) | Rejected(reason: Value)

  /** The login thunk: the response data, or a rejection with the server's error or the fallback. */
  function LoginThunk(reply: Reply<LoginPayload>): (r: ThunkResult<LoginPayload>)
    ensures reply.Ok? <==> r.Fulfilled?
    ensures reply.Ok? ==> r.payload == reply.data
    ensures reply.Failed? && ErrorField(reply.body).Some? ==> r.reason == ErrorField(reply.body).value
    ensures reply.Failed? && ErrorField(reply.body).None? ==> r.reason == Message(LoginFailed)
  {
    match reply
    case Ok(data) => Fulfilled(data)
    case Failed(body) => Rejected(ErrorOr(body, LoginFailed))
  }

  /** The register thunk takes username, email and password from its argument and posts only those. */
  function RegisterRequestBody(args: RegisterArgs): (b: RegisterBody)
    ensures b.username == args.username && b.email == args.email && b.password == args.password
  {
    RegisterBody(args.username, args.email, args.password)
  }

  /** The profile (phone number and role) never reaches the register endpoint. */
  lemma RegisterBodyIgnoresProfile(args: RegisterArgs, other: Profile)
    ensures RegisterRequestBody(args.(profile := other)) == RegisterRequestBody(args)
  {
  }

  /** The register thunk: fulfilled with the response data, or rejected with the server's error or the fallback. */
  function RegisterThunk<T>(reply: Reply<T>): (r: ThunkResult<T>)
    ensures reply.Ok? <==> r.Fulfilled?
    ensures reply.Ok? ==> r.payload == reply.data
    ensures reply.Failed? && ErrorField(reply.body).Some? ==> r.reason == ErrorField(reply.body).value
    ensures reply.Failed? && ErrorField(reply.body).None? ==> r.reason == Message(RegisterFailed)
  {
    match reply
    case Ok(data) => Fulfilled(data)
    case Failed(body) => Rejected(ErrorOr(body, RegisterFailed))
  }

  datatype AuthState = AuthState(user: Json, token: Option<string>, isAuthenticated: bool, loading: bool, error: Option<Value>)

  /** The user restored from storage: null when absent, empty, or not valid JSON. */
  function StoredUser(items: map<string, string>, parse: string -> Option<Json>): (u: Json)
    ensures !Truthy(Get(items, UserKey)) ==> u == JNull
    ensures Truthy(Get(items, UserKey)) && parse(items[UserKey]).None? ==> u == JNull
    ensures Truthy(Get(items, UserKey)) && parse(items[UserKey]).Some? ==> u == parse(items[UserKey]).value
  {
    match Get(items, UserKey)
    case Some(data) =>
      if data == "" then JNull
      else (match parse(data) case Some(j) => j case None => JNull)
    case None => JNull
  }

  /** The state at start-up, derived from what storage holds. */
  function InitialState(items: map<string, string>, parse: string -> Option<Json>): (s: AuthState)
    ensures s.isAuthenticated <==> AccessTokenKey in items && items[AccessTokenKey] != ""
    ensures s.token.Some? <==> s.isAuthenticated
    ensures s.token.Some? ==> s.token.value == items[AccessTokenKey]
    ensures s.user == StoredUser(items, parse)
    ensures !s.loading && s.error == None
  {
    AuthState(StoredUser(items, parse), AccessToken(items), AccessToken(items).Some?, false, None)
  }

  /** The store: the reducer's state fields, updated in place, and the shared storage. */
  class AuthStore {
    const storage: LocalStorage
    var user: Json
    var token: Option<string>
    var isAuthenticated: bool
    var loading: bool
    var error: Option<Value>

    function Snapshot(): AuthState
      reads this
    {
      AuthState(user, token, isAuthenticated, loading, error)
    }

    /** The session flag agrees with storage: authenticated exactly when an access token is stored. */
    predicate Consistent()
      reads this, storage
    {
      isAuthenticated <==> AccessToken(storage.items).Some?
    }

    constructor (storage: LocalStorage, parse: string -> Option<Json>)
      ensures this.storage == storage
      ensures Snapshot() == InitialState(storage.items, parse)
      ensures Consistent()
    {
      this.storage := storage;
      var s := InitialState(storage.items, parse);
      user := s.user;
      token := s.token;
      isAuthenticated := s.isAuthenticated;
      loading := false;
      error := None;
    }

    /** The logout action: the session is cleared in the state and in storage. */
    method Logout()
      modifies this, storage
      ensures user == JNull && token == None && !isAuthenticated
      ensures loading == old(loading) && error == old(error)
      ensures storage.items == (old(storage.items) - {AccessTokenKey, UserKey, RefreshTokenKey})[AuthFlagKey := "false"]
      ensures Consistent()
    {
      user := JNull;
      token := None;
      isAuthenticated := false;
      storage.RemoveItem(AccessTokenKey);
      storage.RemoveItem(UserKey);
      storage.RemoveItem(RefreshTokenKey);
      storage.SetItem(AuthFlagKey, "false");
    }

    /** login.pending and register.pending: a request is in flight and the old error is dropped. */
    method Pending()
      modifies this
      ensures Snapshot() == old(Snapshot()).(loading := true, error := None)
      ensures old(Consistent()) ==> Consistent()
    {
      loading := true;
      error := None;
    }

    /**
     * login.fulfilled: the payload's user and token become the state and the
     * session is marked authenticated; storage receives the access token, the
     * refresh token and the serialised user (an undefined token is stored as
     * the text "undefined").
     */
    method LoginFulfilled(payload: LoginPayload, stringify: Json -> string)
      modifies this, storage
      ensures Snapshot() == old(Snapshot()).(loading := false, user := payload.user, token := payload.token, isAuthenticated := true)
      ensures storage.items == old(storage.items)[AccessTokenKey := Text(payload.access)]
                                                [RefreshTokenKey := Text(payload.refresh)]
                                                [UserKey := stringify(payload.user)]
                                                [AuthFlagKey := "true"]
      ensures payload.access != Some("") ==> Consistent()
    {
      loading := false;
      user := payload.user;
      token := payload.token;
      isAuthenticated := true;
      storage.SetItem(AccessTokenKey, Text(payload.access));
      storage.SetItem(RefreshTokenKey, Text(payload.refresh));
      storage.SetItem(UserKey, stringify(payload.user));
      storage.SetItem(AuthFlagKey, "true");
    }

    /**
     * login.rejected and register.rejected: the request is over and the
     * rejection value (a string, or the server's array) is the error.
     */
    method Reject(reason: Value)
      modifies this
      ensures Snapshot() == old(Snapshot()).(loading := false, error := Some(reason))
      ensures old(Consistent()) ==> Consistent()
    {
      loading := false;
      error := Some(reason);
    }

    /** register.fulfilled: only the in-flight flag drops. */
    method RegisterFulfilled()
      modifies this
      ensures Snapshot() == old(Snapshot()).(loading := false)
      ensures old(Consistent()) ==> Consistent()
    {
      loading := false;
    }

    /** Dispatching login: pending, then fulfilled or rejected by the thunk's result. */
    method Login(reply: Reply<LoginPayload>, stringify: Json -> string) returns (r: ThunkResult<LoginPayload>)
      modifies this, storage
      ensures r == LoginThunk(reply)
      ensures r.Fulfilled? ==> Snapshot() == old(Snapshot()).(loading := false, error := None, user := r.payload.user,
                                                           token := r.payload.token, isAuthenticated := true)
      ensures r.Fulfilled? ==> storage.items == old(storage.items)[AccessTokenKey := Text(r.payload.access)]
                                                                  [RefreshTokenKey := Text(r.payload.refresh)]
                                                                  [UserKey := stringify(r.payload.user)]
                                                                  [AuthFlagKey := "true"]
      ensures r.Rejected? ==> Snapshot() == old(Snapshot()).(loading := false, error := Some(r.reason))
      ensures r.Rejected? ==> storage.items == old(storage.items)
    {
      Pending();
      r := LoginThunk(reply);
      match r
      case Fulfilled(payload) => LoginFulfilled(payload, stringify);
      case Rejected(reason) => Reject(reason);
    }

    /** Dispatching register: pending, then fulfilled or rejected; storage is never touched. */
    method Register<T>(reply: Reply<T>) returns (r: ThunkResult<T>)
      modifies this
      ensures r == RegisterThunk(reply)
      ensures r.Fulfilled? ==> Snapshot() == old(Snapshot()).(loading := false, error := None)
      ensures r.Rejected? ==> Snapshot() == old(Snapshot()).(loading := false, error := Some(r.reason))
    {
      Pending();
      r := RegisterThunk(reply);
      match r
      case Fulfilled(_) => RegisterFulfilled();
      case Rejected(reason) => Reject(reason);
    }
  }
}
