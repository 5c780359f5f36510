/**
 * The sign-in form of `client/src/pages/Login.jsx`: the credentials the user
 * typed, the error shown, the `loading` flag, and `onSubmit`, which sends the
 * credentials through the `api` gateway, writes the four session keys from the
 * answer and routes by role.
 */
module LoginPage {
  import opened Http
  import opened Api

  /** `res.data.user`: the signed-in user's id and role. */
  datatype SessionUser = SessionUser(id: string, role: string)

  /** `res.data` of a successful sign-in. */
  datatype LoginData = LoginData(accessToken: string, refreshToken: string, user: SessionUser)

  const LoginUrl := "/api/auth/login"
  const AdminRoute := "/admin"
  const UserRoute := "/user"
  const LoginFallback := "Login failed"

  /** The sign-in request: the email as typed and the password only in its
      encrypted form (`encrypt` is the AES step, which is not modelled). */
  function LoginRequest(email: string, password: string, encrypt: string -> string): (r: Request)
    ensures r.url == LoginUrl && r.verb == "POST"
    ensures r.body.Fields? && r.body.fields.Keys == {"email", "password"}
    ensures r.body.fields["email"] == email && r.body.fields["password"] == encrypt(password)
  {
    ApiRequest("POST", LoginUrl, Fields(map["email" := email, "password" := encrypt(password)]))
  }

  /** The four `localStorage.setItem` calls of a successful sign-in. */
  function StoreSession(store: Store, d: LoginData): Store
  {
    store[AccessToken := d.accessToken][RefreshToken := d.refreshToken][UserRole := d.user.role][UserId := d.user.id]
  }

  /** After a sign-in the four session keys hold the answer's tokens, role and id,
      and every other key is as it was. */
  lemma StoreSessionWrites(store: Store, d: LoginData)
    ensures var r := StoreSession(store, d);
            && AccessToken in r && r[AccessToken] == d.accessToken
            && RefreshToken in r && r[RefreshToken] == d.refreshToken
            && UserRole in r && r[UserRole] == d.user.role
            && UserId in r && r[UserId] == d.user.id
            && SessionConsistent(r)
            && (forall k :: k !in SessionKeys ==> (k in r <==> k in store) && (k in r ==> r[k] == store[k]))
  {
  }

  /** Logging out after signing in leaves the store as logging out before would
      have: the sign-in touches nothing but the session keys. */
  lemma LogoutUndoesLogin(store: Store, d: LoginData)
    ensures ClearSession(StoreSession(store, d)) == ClearSession(store)
  {
    var a, b := ClearSession(StoreSession(store, d)), ClearSession(store);
    assert a.Keys == b.Keys;
  }

  /** `'admin'` goes to the admin dashboard; every other role, whatever its value,
      goes to the user dashboard. */
  function RouteForRole(role: string): (r: string)
    ensures r == AdminRoute <==> role == "admin"
    ensures r == UserRoute <==> role != "admin"
  {
    if role == "admin" then AdminRoute else UserRoute
  }

  class Login {
    var email: string
    var password: string
    var error: string
    var loading: bool
    /** Whether `loading` was on when the request left: the spinner covers the call. */
    ghost var loadingWhenSent: bool

    constructor ()
      ensures email == "" && password == "" && error == "" && !loading
    {
      email, password, error, loading := "", "", "", false;
      loadingWhenSent := false;
    }

    /** `onChange`: the named field of the form takes the typed value; a name the
        form does not render changes neither credential. */
    method OnChange(name: string, value: string)
      modifies this
      ensures email == (if name == "email" then value else old(email))
      ensures password == (if name == "password" then value else old(password))
      ensures error == old(error) && loading == old(loading)
    {
      if name == "email" {
        email := value;
      } else if name == "password" {
        password := value;
      }
    }

    /** `onSubmit`, given the encryption step and the server's answers:
        - exactly the calls of one gateway request for the sign-in are logged;
        - on success the four session keys are written from the answer on top of
          whatever the gateway left, the error is empty, and the route follows
          the role;
        - on failure the page writes no key (the store is what the gateway left),
          the error is the server's `msg` or "Login failed", and the route moves
          only if the gateway logged out;
        - `loading` is on while the request runs and off afterwards. */
    method OnSubmit(b: Browser, encrypt: string -> string, ex: Exchange<LoginData>)
      modifies this, b
      ensures var e := Dispatch(old(b.store), LoginRequest(old(email), old(password), encrypt), ex);
              && b.log == old(b.log) + e.calls
              && (e.result.Ok? ==>
                    && b.store == StoreSession(e.store, e.result.data)
                    && b.route == RouteForRole(e.result.data.user.role)
                    && error == "")
              && (e.result.Fail? ==>
                    && b.store == e.store
                    && b.route == (if e.loggedOut then LoginRoute else old(b.route))
                    && error == e.result.error.MsgOr(LoginFallback))
      ensures loadingWhenSent && !loading
      ensures email == old(email) && password == old(password)
    {
      loading := true;
      error := "";
      loadingWhenSent := loading;
      var res := b.Send(LoginRequest(email, password, encrypt), ex);
      match res {
        case Ok(data) =>
          b.SetItem(AccessToken, data.accessToken);
          b.SetItem(RefreshToken, data.refreshToken);
          b.SetItem(UserRole, data.user.role);
          b.SetItem(UserId, data.user.id);
          b.Navigate(RouteForRole(data.user.role));
        case Fail(err) =>
          error := err.MsgOr(LoginFallback);
      }
      loading := false;
    }
  }
}
