/**
 * The application's HTTP client: a request hook that attaches the stored
 * access token as a bearer credential, and a response hook that answers a 401
 * by exchanging the stored refresh token for a new access token and replaying
 * the failed request once. The backend and the token-refresh endpoint are
 * parameters: `backend` answers a request as it goes on the wire, `refresh`
 * answers a refresh call carrying the stored refresh token (or null).
 */
module AxiosConfig {
  import opened Js
  import opened WebStorage

  const AuthorizationHeader := "Authorization"
  const ContentTypeHeader := "Content-Type"
  const LoginPath := "/login"

  function Bearer(token: string): string {
    "Bearer " + token
  }

  /** A request configuration; `retry` is the `_retry` marker the response hook sets. */
  datatype Request = Request(verb: string, url: string, headers: map<string, string>, retry: bool)

  /** What came back: a response with its status and body, or no response at all. */
  datatype Reply = Response(status: int, data: string) | NoResponse

  /** The client resolves only 2xx responses; everything else reaches the error hook. */
  predicate Succeeded(r: Reply) {
    r.Response? && 200 <= r.status < 300
  }

  predicate Unauthorized(r: Reply) {
    r.Response? && r.status == 401
  }

  /** The refresh endpoint either hands out a new access token or fails. */
  datatype RefreshReply = Refreshed(access: string) | RefreshFailed(reason: Reply)

  /** Why a request was rejected: its own failed reply, or the refresh call's failure. */
  datatype Failure = RequestFailed(reply: Reply, config: Request) | RefreshRejected(reason: Reply)

  datatype Outcome = Resolved(reply: Reply) | Rejected(failure: Failure)

  /** One call to the refresh endpoint: the token it carried and whether the request was already marked. */
  datatype RefreshCall = RefreshCall(refreshToken: Option<string>, requestMarked: bool)

  /** The observable state the client touches: storage, the page location, and the refresh calls made. */
  datatype Effects = Effects(items: map<string, string>, location: Option<string>, refreshes: seq<RefreshCall>)

  /** A fresh request as the client's instance issues it: JSON content type, not yet retried. */
  function Issue(verb: string, url: string): (r: Request)
    ensures r.headers == map[ContentTypeHeader := "application/json"] && !r.retry
    ensures r.verb == verb && r.url == url
  {
    Request(verb, url, map[ContentTypeHeader := "application/json"], false)
  }

  /** The request hook: with an access token stored, the Authorization header carries it. */
  function Decorated(config: Request, items: map<string, string>): (c: Request)
    ensures c.verb == config.verb && c.url == config.url && c.retry == config.retry
    ensures AccessToken(items).Some? ==>
      c.headers.Keys == config.headers.Keys + {AuthorizationHeader}
      && c.headers[AuthorizationHeader] == Bearer(AccessToken(items).value)
      && forall h :: h in config.headers && h != AuthorizationHeader ==> c.headers[h] == config.headers[h]
    ensures AccessToken(items).None? ==> c == config
  {
    match AccessToken(items)
    case Some(token) => config.(headers := config.headers[AuthorizationHeader := Bearer(token)])
    case None => config
  }

  /** The request replayed after a successful refresh: marked, and carrying the new token. */
  function Replay(config: Request, token: string): (r: Request)
    ensures r.retry && AuthorizationHeader in r.headers && r.headers[AuthorizationHeader] == Bearer(token)
    ensures r.verb == config.verb && r.url == config.url
    ensures r.headers.Keys == config.headers.Keys + {AuthorizationHeader}
    ensures forall h :: h in config.headers && h != AuthorizationHeader ==> r.headers[h] == config.headers[h]
  {
    config.(retry := true, headers := config.headers[AuthorizationHeader := Bearer(token)])
  }

  /** Sending a request: the request hook, the backend, then the response hooks. */
  function AfterSend(config: Request, backend: Request -> Reply, refresh: Option<string> -> RefreshReply, before: Effects): (r: (Effects, Outcome))
    decreases if config.retry then 0 else 1, 1
    ensures r.1.Resolved? ==> Succeeded(r.1.reply)
    ensures r.0.location == before.location || r.0.location == Some(LoginPath)
    ensures |before.refreshes| <= |r.0.refreshes| <= |before.refreshes| + (if config.retry then 0 else 1)
    ensures r.0.refreshes[..|before.refreshes|] == before.refreshes
  {
    var sent := Decorated(config, before.items);
    var reply := backend(sent);
    if Succeeded(reply) then (before, Resolved(reply))
    else AfterError(sent, reply, backend, refresh, before)
  }

  /** The error hook for the failed `reply` to the request `config`. */
  function AfterError(config: Request, reply: Reply, backend: Request -> Reply, refresh: Option<string> -> RefreshReply, before: Effects): (r: (Effects, Outcome))
    decreases if config.retry then 0 else 1, 0
    ensures r.1.Resolved? ==> Succeeded(r.1.reply)
    ensures r.0.location == before.location || r.0.location == Some(LoginPath)
    ensures |before.refreshes| <= |r.0.refreshes| <= |before.refreshes| + (if config.retry then 0 else 1)
    ensures r.0.refreshes[..|before.refreshes|] == before.refreshes
  {
    if !Unauthorized(reply) || config.retry then
      (before, Rejected(RequestFailed(reply, config)))
    else
      var refreshToken := Get(before.items, RefreshTokenKey);
      var logged := before.(refreshes := before.refreshes + [RefreshCall(refreshToken, true)]);
      match refresh(refreshToken)
      case Refreshed(token) =>
        AfterSend(Replay(config, token), backend, refresh, logged.(items := before.items[AccessTokenKey := token]))
      case RefreshFailed(reason) =>
        (logged.(items := before.items - {AccessTokenKey, UserKey, RefreshTokenKey}, location := Some(LoginPath)),
         Rejected(RefreshRejected(reason)))
  }

  /** Decorating a replayed request again with the token it already carries changes nothing. */
  lemma ReplayDecoratedUnchanged(config: Request, token: string, items: map<string, string>)
    requires Get(items, AccessTokenKey) == Some(token)
    ensures Decorated(Replay(config, token), items) == Replay(config, token)
  {
    var r := Replay(config, token);
    if token != "" {
      assert r.headers[AuthorizationHeader := Bearer(token)] == r.headers;
    }
  }

  /** A 2xx reply passes through unchanged, with no storage change and no refresh. */
  lemma SuccessPassesThrough(config: Request, backend: Request -> Reply, refresh: Option<string> -> RefreshReply, before: Effects)
    requires Succeeded(backend(Decorated(config, before.items)))
    ensures AfterSend(config, backend, refresh, before) == (before, Resolved(backend(Decorated(config, before.items))))
  {
  }

  /**
   * A failure that is not a 401, or a 401 on a request already marked, is
   * rejected with the original error; nothing is refreshed or stored.
   */
  lemma OtherFailuresRejectedAsIs(config: Request, reply: Reply, backend: Request -> Reply, refresh: Option<string> -> RefreshReply, before: Effects)
    requires !Unauthorized(reply) || config.retry
    ensures AfterError(config, reply, backend, refresh, before) == (before, Rejected(RequestFailed(reply, config)))
  {
  }

  /** A request already marked as retried never causes a refresh and never changes storage. */
  lemma {:induction false} MarkedRequestNeverRefreshes(config: Request, backend: Request -> Reply, refresh: Option<string> -> RefreshReply, before: Effects)
    requires config.retry
    ensures AfterSend(config, backend, refresh, before).0 == before
    ensures var reply := backend(Decorated(config, before.items));
      AfterSend(config, backend, refresh, before).1
        == if Succeeded(reply) then Resolved(reply) else Rejected(RequestFailed(reply, Decorated(config, before.items)))
  {
  }

  /**
   * The refresh log: an unmarked request answered with 401 makes exactly one
   * refresh call, carrying the stored refresh token, after the request was
   * marked; every other request makes none, the replay included.
   */
  lemma {:induction false} RefreshOnlyOnUnauthorized(config: Request, backend: Request -> Reply, refresh: Option<string> -> RefreshReply, before: Effects)
    ensures var reply := backend(Decorated(config, before.items));
      AfterSend(config, backend, refresh, before).0.refreshes
        == before.refreshes + (if Unauthorized(reply) && !config.retry then [RefreshCall(Get(before.items, RefreshTokenKey), true)] else [])
  {
    var sent := Decorated(config, before.items);
    var reply := backend(sent);
    if Unauthorized(reply) && !sent.retry {
      var refreshToken := Get(before.items, RefreshTokenKey);
      var logged := before.(refreshes := before.refreshes + [RefreshCall(refreshToken, true)]);
      match refresh(refreshToken)
      case Refreshed(token) =>
        MarkedRequestNeverRefreshes(Replay(sent, token), backend, refresh, logged.(items := before.items[AccessTokenKey := token]));
      case RefreshFailed(_) =>
    }
  }

  /**
   * A 401 followed by a successful refresh: the new access token is stored
   * (nothing else in storage changes), and the request is replayed marked and
   * carrying the new token; the replay's own outcome is final.
   */
  lemma {:induction false} RefreshSuccessReplaysOnce(config: Request, backend: Request -> Reply, refresh: Option<string> -> RefreshReply, before: Effects, token: string)
    requires var reply := backend(Decorated(config, before.items));
      Unauthorized(reply) && !config.retry
    requires refresh(Get(before.items, RefreshTokenKey)) == Refreshed(token)
    ensures var sent := Decorated(config, before.items);
      var replay := Replay(sent, token);
      var again := backend(replay);
      var (after, outcome) := AfterSend(config, backend, refresh, before);
      && after.items == before.items[AccessTokenKey := token]
      && Get(after.items, RefreshTokenKey) == Get(before.items, RefreshTokenKey)
      && Get(after.items, UserKey) == Get(before.items, UserKey)
      && after.location == before.location
      && after.refreshes == before.refreshes + [RefreshCall(Get(before.items, RefreshTokenKey), true)]
      && outcome == (if Succeeded(again) then Resolved(again) else Rejected(RequestFailed(again, replay)))
  {
    var sent := Decorated(config, before.items);
    var refreshToken := Get(before.items, RefreshTokenKey);
    var logged := before.(refreshes := before.refreshes + [RefreshCall(refreshToken, true)]);
    var stored := logged.(items := before.items[AccessTokenKey := token]);
    ReplayDecoratedUnchanged(sent, token, stored.items);
    MarkedRequestNeverRefreshes(Replay(sent, token), backend, refresh, stored);
  }

  /**
   * A 401 followed by a failed refresh: the access token, the user and the
   * refresh token are removed, the page goes to /login, and the rejection
   * carries the refresh error; a request sent afterwards carries no token.
   */
  lemma RefreshFailureEndsSession(config: Request, backend: Request -> Reply, refresh: Option<string> -> RefreshReply, before: Effects, reason: Reply, next: Request)
    requires var reply := backend(Decorated(config, before.items));
      Unauthorized(reply) && !config.retry
    requires refresh(Get(before.items, RefreshTokenKey)) == RefreshFailed(reason)
    ensures var (after, outcome) := AfterSend(config, backend, refresh, before);
      && after.items == before.items - {AccessTokenKey, UserKey, RefreshTokenKey}
      && after.location == Some(LoginPath)
      && after.refreshes == before.refreshes + [RefreshCall(Get(before.items, RefreshTokenKey), true)]
      && outcome == Rejected(RefreshRejected(reason))
      && Decorated(next, after.items) == next
  {
  }

  /** The client: one shared storage, the page location, and a ghost log of refresh calls. */
  class SessionClient {
    const storage: LocalStorage
    var location: Option<string>
    ghost var refreshLog: seq<RefreshCall>

    ghost function State(): Effects
      reads this, storage
    {
      Effects(storage.items, location, refreshLog)
    }

    /** The number of refresh calls made so far. */
    ghost function RefreshCount(): nat
      reads this
    {
      |refreshLog|
    }

    constructor (storage: LocalStorage)
      ensures this.storage == storage && location == None && refreshLog == []
    {
      this.storage := storage;
      location := None;
      refreshLog := [];
    }

    /** Sends `config` through the request hook, the backend and the response hooks. */
    method Send(config: Request, backend: Request -> Reply, refresh: Option<string> -> RefreshReply) returns (res: Outcome)
      modifies this, storage
      decreases if config.retry then 0 else 1, 1
      ensures (State(), res) == AfterSend(config, backend, refresh, old(State()))
      ensures RefreshCount() <= old(RefreshCount()) + (if config.retry then 0 else 1)
    {
      RefreshOnlyOnUnauthorized(config, backend, refresh, State());
      var outgoing := config;
      var token := storage.GetItem(AccessTokenKey);
      if token.Some? && token.value != "" {
        outgoing := outgoing.(headers := outgoing.headers[AuthorizationHeader := Bearer(token.value)]);
      }
      var reply := backend(outgoing);
      if Succeeded(reply) {
        res := Resolved(reply);
      } else {
        res := OnResponseError(outgoing, reply, backend, refresh);
      }
    }

    /** The response hook's error branch for the failed `reply` to `config`. */
    method OnResponseError(config: Request, reply: Reply, backend: Request -> Reply, refresh: Option<string> -> RefreshReply) returns (res: Outcome)
      modifies this, storage
      decreases if config.retry then 0 else 1, 0
      ensures (State(), res) == AfterError(config, reply, backend, refresh, old(State()))
    {
      var original := config;
      if Unauthorized(reply) && !original.retry {
        original := original.(retry := true);
        var refreshToken := storage.GetItem(RefreshTokenKey);
        refreshLog := refreshLog + [RefreshCall(refreshToken, original.retry)];
        var answer := refresh(refreshToken);
        match answer
        case Refreshed(token) =>
          storage.SetItem(AccessTokenKey, token);
          original := original.(headers := original.headers[AuthorizationHeader := Bearer(token)]);
          assert original == Replay(config, token);
          assert State() == old(State()).(refreshes := old(refreshLog) + [RefreshCall(refreshToken, true)], items := old(storage.items)[AccessTokenKey := token]);
          res := Send(original, backend, refresh);
        case RefreshFailed(reason) =>
          storage.RemoveItem(AccessTokenKey);
          storage.RemoveItem(UserKey);
          storage.RemoveItem(RefreshTokenKey);
          location := Some(LoginPath);
          assert storage.items == old(storage.items) - {AccessTokenKey, UserKey, RefreshTokenKey};
          res := Rejected(RefreshRejected(reason));
      } else {
        res := Rejected(RequestFailed(reply, config));
      }
    }
  }
}
