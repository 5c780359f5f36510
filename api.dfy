/**
 * The request gateway of `client/src/utils/api.js` and the browser state it works
 * on: the persisted key/value store (`localStorage`), the current location, and
 * the log of every call that left the client.
 *
 * `Dispatch` is the specification of one request through the `api` instance (the
 * request interceptor, the response interceptor's status-493 refresh and single
 * replay, and the logout it may cascade into); `Browser.Send` is the step-by-step
 * implementation proved against it.
 */
module Api {
  import opened Wrappers
  import opened Http

  type Store = map<string, string>

  const AccessToken := "accessToken"
  const RefreshToken := "refreshToken"
  const UserRole := "userRole"
  const UserId := "userId"

  /** The four keys that make up a session. */
  const SessionKeys: set<string> := {AccessToken, RefreshToken, UserRole, UserId}

  /** The status the server uses for "access token expired". */
  const ExpiredStatus := 493

  const RefreshUrl := "http://localhost:5000/api/auth/refresh-token"
  const LogoutUrl := "/api/auth/logout"
  const LoginRoute := "/login"

  /** `localStorage.getItem(key)` tested for truthiness: an absent key and an
      empty value both count as missing. */
  predicate Has(store: Store, key: string)
  {
    key in store && store[key] != ""
  }

  /** `store` and `store'` agree on every key except `key`. */
  ghost predicate SameExcept(store: Store, store': Store, key: string)
  {
    forall k :: k != key ==> (k in store <==> k in store') && (k in store ==> store[k] == store'[k])
  }

  /** The four session keys are either all stored or all absent. */
  predicate SessionConsistent(store: Store)
  {
    (forall k :: k in SessionKeys ==> k in store) || (forall k :: k in SessionKeys ==> k !in store)
  }

  function Bearer(token: string): string
  {
    "Bearer " + token
  }

  /** Reads the token back out of an `Authorization` header, if it has the bearer form. */
  function BearerToken(headers: map<string, string>): Option<string>
  {
    if AuthorizationHeader in headers && "Bearer " <= headers[AuthorizationHeader]
    then Some(headers[AuthorizationHeader][7..])
    else None
  }

  /** The request interceptor: with an access token stored, the request carries it
      as its bearer credential and is otherwise unchanged; without one the request
      goes out exactly as it was. */
  function AttachBearer(req: Request, store: Store): (r: Request)
    ensures r.verb == req.verb && r.url == req.url && r.body == req.body
    ensures Has(store, AccessToken) ==> BearerToken(r.headers) == Some(store[AccessToken])
    ensures Has(store, AccessToken) ==> SameExcept(req.headers, r.headers, AuthorizationHeader)
    ensures !Has(store, AccessToken) ==> r == req
  {
    if Has(store, AccessToken)
    then req.(headers := req.headers[AuthorizationHeader := Bearer(store[AccessToken])])
    else req
  }

  /** The body-less error path of the response interceptor: a failure whose status
      is "token expired". */
  predicate IsExpired<T>(r: Response<T>)
  {
    r.Fail? && r.error.HasStatus(ExpiredStatus)
  }

  /** The refresh call, made with bare `axios` so that no interceptor runs on it: a
      POST to the refresh URL with no credential, whose body is the refresh token and
      nothing else. */
  function RefreshCall(refreshToken: string): (c: Call)
    ensures c.channel == Bare
    ensures c.request.verb == "POST" && c.request.url == RefreshUrl
    ensures AuthorizationHeader !in c.request.headers
    ensures c.request.body.Fields? && c.request.body.fields.Keys == {"refreshToken"}
    ensures c.request.body.fields["refreshToken"] == refreshToken
  {
    Call(Bare, Request("POST", RefreshUrl, map[], Fields(map["refreshToken" := refreshToken])))
  }

  /** The original request replayed through bare `axios` with the new access token
      as its bearer; verb, URL, body and every other header are those it was sent
      with. */
  function ReplayCall(sent: Request, token: string): (c: Call)
    ensures c.channel == Bare
    ensures c.request.verb == sent.verb && c.request.url == sent.url && c.request.body == sent.body
    ensures BearerToken(c.request.headers) == Some(token)
    ensures SameExcept(sent.headers, c.request.headers, AuthorizationHeader)
  {
    Call(Bare, sent.(headers := sent.headers[AuthorizationHeader := Bearer(token)]))
  }

  /** `handleLogout`'s revoke call: made through the `api` instance, and only when a
      user id is stored. */
  function RevokeCalls(store: Store): (calls: seq<Call>)
    ensures |calls| <= 1
    ensures |calls| == 1 <==> Has(store, UserId)
    ensures forall c :: c in calls ==> c.channel == Instance && c.request.url == LogoutUrl
    ensures forall c :: c in calls ==>
              && c.request.verb == "POST" && UserId in store
              && c.request.body.Fields? && c.request.body.fields.Keys == {"userId"}
              && c.request.body.fields["userId"] == store[UserId]
    ensures forall c :: c in calls && Has(store, AccessToken) ==> BearerToken(c.request.headers) == Some(store[AccessToken])
  {
    if Has(store, UserId)
    then [Call(Instance, AttachBearer(ApiRequest("POST", LogoutUrl, Fields(map["userId" := store[UserId]])), store))]
    else []
  }

  /** `handleLogout`'s effect on the store: the four session keys are gone, every
      other key keeps its value. */
  function ClearSession(store: Store): (r: Store)
    ensures forall k :: k in SessionKeys ==> k !in r
    ensures forall k :: k !in SessionKeys ==> (k in r <==> k in store) && (k in r ==> r[k] == store[k])
  {
    store - SessionKeys
  }

  /** Clearing the session twice is clearing it once. */
  lemma ClearSessionIdempotent(store: Store)
    ensures ClearSession(ClearSession(store)) == ClearSession(store)
  {
  }

  /** What one request through the `api` instance does. */
  datatype Effect<T> = Effect(store: Store, calls: seq<Call>, result: Response<T>, loggedOut: bool)

  /** One request through the `api` instance, given the server's answers `ex`
      (what it guarantees is `DispatchContract`). */
  function Dispatch<T>(store: Store, req: Request, ex: Exchange<T>): Effect<T>
  {
    var sent := AttachBearer(req, store);
    var first := [Call(Instance, sent)];
    if !IsExpired(ex.first) then
      Effect(store, first, ex.first, false)
    else if !Has(store, RefreshToken) then
      Effect(ClearSession(store), first + RevokeCalls(store), ex.first, true)
    else
      match ex.refresh
      case Ok(token) =>
        Effect(store[AccessToken := token], first + [RefreshCall(store[RefreshToken]), ReplayCall(sent, token)],
               ex.replay, false)
      case Fail(err) =>
        Effect(ClearSession(store), first + [RefreshCall(store[RefreshToken])] + RevokeCalls(store), Fail(err), true)
  }

  /** What one request through the `api` instance guarantees:
      - the first call always carries the stored access token as its bearer;
      - any outcome but "token expired" is returned unchanged, with the store untouched
        and nothing else sent;
      - on "token expired" with a refresh token and a successful refresh, only the
        access token changes, and the request is replayed exactly once, as the last
        call, carrying the new bearer; the replay's outcome is returned;
      - on a failed refresh the session is logged out and the refresh error, not the
        original one, is returned;
      - on "token expired" without a refresh token the session is logged out and the
        original error is returned;
      - a logout clears exactly the four session keys;
      - after the first call, the only call through the `api` instance (the only one
        its interceptors can see) is the logout's revoke call. */
  lemma DispatchContract<T>(store: Store, req: Request, ex: Exchange<T>)
    ensures var e := Dispatch(store, req, ex);
            && |e.calls| >= 1 && e.calls[0] == Call(Instance, AttachBearer(req, store))
            && (!IsExpired(ex.first) ==>
                  e.store == store && e.calls == [e.calls[0]] && e.result == ex.first && !e.loggedOut)
            && (IsExpired(ex.first) && Has(store, RefreshToken) && ex.refresh.Ok? ==>
                  && !e.loggedOut
                  && SameExcept(store, e.store, AccessToken)
                  && AccessToken in e.store && e.store[AccessToken] == ex.refresh.data
                  && e.result == ex.replay
                  && e.calls[|e.calls| - 1] == ReplayCall(AttachBearer(req, store), ex.refresh.data)
                  && BearerToken(e.calls[|e.calls| - 1].request.headers) == Some(ex.refresh.data))
            && (IsExpired(ex.first) && Has(store, RefreshToken) && ex.refresh.Fail? ==>
                  e.loggedOut && e.result == Fail(ex.refresh.error))
            && (IsExpired(ex.first) && !Has(store, RefreshToken) ==>
                  e.loggedOut && e.result == ex.first)
            && (e.loggedOut ==> e.store == ClearSession(store))
            && (forall k :: 1 <= k < |e.calls| && e.calls[k].channel == Instance ==>
                  e.calls[k].request.url == LogoutUrl)
  {
  }

  /** How many of `calls` are calls to `url`. */
  function CountTo(calls: seq<Call>, url: string): nat
  {
    if calls == [] then 0
    else (if calls[0].request.url == url then 1 else 0) + CountTo(calls[1..], url)
  }

  lemma {:induction false} CountToConcat(xs: seq<Call>, ys: seq<Call>, url: string)
    ensures CountTo(xs + ys, url) == CountTo(xs, url) + CountTo(ys, url)
  {
    if xs == [] {
      assert xs + ys == ys;
    } else {
      assert (xs + ys)[1..] == xs[1..] + ys;
      CountToConcat(xs[1..], ys, url);
    }
  }

  /** One request makes exactly one refresh call when its first answer is "token
      expired" and a refresh token is stored, and none otherwise; exactly one
      revoke call when it logs out with a user id stored, and none otherwise; and
      it sends its own URL at most twice (the call and its single replay) unless it
      is itself the refresh or the revoke. */
  lemma RetryBound<T>(store: Store, req: Request, ex: Exchange<T>)
    requires req.url != RefreshUrl && req.url != LogoutUrl
    ensures var e := Dispatch(store, req, ex);
            && CountTo(e.calls, RefreshUrl) == (if IsExpired(ex.first) && Has(store, RefreshToken) then 1 else 0)
            && CountTo(e.calls, LogoutUrl) == (if e.loggedOut && Has(store, UserId) then 1 else 0)
            && CountTo(e.calls, req.url) <= 2
            && (CountTo(e.calls, req.url) == 2 <==>
                  IsExpired(ex.first) && Has(store, RefreshToken) && ex.refresh.Ok?)
  {
    var sent := AttachBearer(req, store);
    var first := [Call(Instance, sent)];
    assert CountTo(first, req.url) == 1 && CountTo(first, RefreshUrl) == 0 && CountTo(first, LogoutUrl) == 0;
    if IsExpired(ex.first) {
      if !Has(store, RefreshToken) {
        RevokeCount(first, store, req.url);
      } else if ex.refresh.Ok? {
        var rest := [RefreshCall(store[RefreshToken]), ReplayCall(sent, ex.refresh.data)];
        assert rest[1..] == [ReplayCall(sent, ex.refresh.data)] && rest[1..][1..] == [];
        CountToConcat(first, rest, RefreshUrl);
        CountToConcat(first, rest, LogoutUrl);
        CountToConcat(first, rest, req.url);
      } else {
        var mid := first + [RefreshCall(store[RefreshToken])];
        CountToConcat(first, [RefreshCall(store[RefreshToken])], RefreshUrl);
        CountToConcat(first, [RefreshCall(store[RefreshToken])], LogoutUrl);
        CountToConcat(first, [RefreshCall(store[RefreshToken])], req.url);
        RevokeCount(mid, store, req.url);
      }
    }
  }

  /** Appending the revoke calls adds one call to the logout URL when a user id is
      stored, and none to any other URL. */
  lemma RevokeCount(calls: seq<Call>, store: Store, url: string)
    requires url != LogoutUrl
    ensures CountTo(calls + RevokeCalls(store), url) == CountTo(calls, url)
    ensures CountTo(calls + RevokeCalls(store), RefreshUrl) == CountTo(calls, RefreshUrl)
    ensures CountTo(calls + RevokeCalls(store), LogoutUrl)
            == CountTo(calls, LogoutUrl) + (if Has(store, UserId) then 1 else 0)
  {
    var revoke := RevokeCalls(store);
    CountToConcat(calls, revoke, url);
    CountToConcat(calls, revoke, RefreshUrl);
    CountToConcat(calls, revoke, LogoutUrl);
    if revoke != [] {
      assert revoke[1..] == [];
    }
  }

  /** No request through the gateway leaves a half session behind: if the four
      session keys were all stored or all absent before, they still are. */
  lemma DispatchKeepsSessionConsistent<T>(store: Store, req: Request, ex: Exchange<T>)
    requires SessionConsistent(store)
    ensures SessionConsistent(Dispatch(store, req, ex).store)
  {
    var e := Dispatch(store, req, ex);
    if !e.loggedOut && IsExpired(ex.first) {
      assert RefreshToken in store;
      assert forall k :: k in SessionKeys ==> k in e.store;
    }
  }

  /**
   * The browser side of the client: `localStorage`, the current location, and a
   * log of every call sent (the log is how the model observes the network).
   */
  class Browser {
    var store: Store
    var route: string
    var log: seq<Call>

    constructor (initialStore: Store, initialRoute: string)
      ensures store == initialStore && route == initialRoute && log == []
    {
      store := initialStore;
      route := initialRoute;
      log := [];
    }

    /** `localStorage.setItem(key, value)` */
    method SetItem(key: string, value: string)
      modifies this
      ensures store == old(store)[key := value]
      ensures route == old(route) && log == old(log)
    {
      store := store[key := value];
    }

    /** `localStorage.removeItem(key)` */
    method RemoveItem(key: string)
      modifies this
      ensures store == old(store) - {key}
      ensures route == old(route) && log == old(log)
    {
      store := store - {key};
    }

    /** A client-side navigation, or an assignment to `window.location.href`. */
    method Navigate(to: string)
      modifies this
      ensures route == to
      ensures store == old(store) && log == old(log)
    {
      route := to;
    }

    /** `handleLogout`: attempts the revoke call when a user id is stored, ignores its
        outcome, and then always removes the four session keys and goes to the login
        page; no other key changes. */
    method Logout()
      modifies this
      ensures store == ClearSession(old(store))
      ensures log == old(log) + RevokeCalls(old(store))
      ensures route == LoginRoute
    {
      if Has(store, UserId) {
        // The revoke call's own outcome is swallowed by the `catch`.
        log := log + [Call(Instance, AttachBearer(ApiRequest("POST", LogoutUrl, Fields(map["userId" := store[UserId]])), store))];
      }
      RemoveSessionKeys();
      Navigate(LoginRoute);
    }

    /** The four `localStorage.removeItem` calls that end a session, one per
        session key: only those keys go, every other key keeps its value. */
    method RemoveSessionKeys()
      modifies this
      ensures store == ClearSession(old(store))
      ensures route == old(route) && log == old(log)
    {
      RemoveItem(AccessToken);
      RemoveItem(RefreshToken);
      RemoveItem(UserRole);
      RemoveItem(UserId);
    }

    /** One request through the `api` instance: the request interceptor, the call,
        and the response interceptor's handling of "token expired". */
    method Send<T>(req: Request, ex: Exchange<T>) returns (r: Response<T>)
      modifies this
      ensures var e := Dispatch(old(store), req, ex);
              && store == e.store
              && log == old(log) + e.calls
              && r == e.result
              && route == (if e.loggedOut then LoginRoute else old(route))
    {
      var sent := AttachBearer(req, store);
      log := log + [Call(Instance, sent)];
      if !IsExpired(ex.first) {
        return ex.first;
      }
      if Has(store, RefreshToken) {
        log := log + [RefreshCall(store[RefreshToken])];
        match ex.refresh {
          case Ok(token) =>
            SetItem(AccessToken, token);
            log := log + [ReplayCall(sent, token)];
            return ex.replay;
          case Fail(err) =>
            Logout();
            return Fail(err);
        }
      }
      Logout();
      return ex.first;
    }
  }
}
