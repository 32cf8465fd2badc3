/** The session gate: a logged-in flag, initialised from the token store, that decides
    whether the Login screen or the Dashboard is shown. */
module App {
  import opened Wrappers

  /** The browser-side token store shared by the gate and the dashboard. Its
      implementation is not part of this model; only the token it holds is. */
  class TokenStore {
    var token: Option<string>

    constructor (saved: Option<string>)
      ensures token == saved
    {
      token := saved;
    }

    /** `getToken()`. */
    method GetToken() returns (t: Option<string>)
      ensures t == token
    {
      t := token;
    }

    /** `saveToken(t)`, called by the Login screen with the token the login request returned. */
    method SaveToken(t: string)
      modifies this
      ensures token == Some(t)
    {
      token := Some(t);
    }

    /** `removeToken()`. */
    method RemoveToken()
      modifies this
      ensures token == None
    {
      token := None;
    }
  }

  datatype Screen = LoginScreen | DashboardScreen

  /** JavaScript's `!!t` for a token read from the store: absent and empty both read as false. */
  predicate Truthy(t: Option<string>) {
    t.Some? && t.value != ""
  }

  class Session {
    const store: TokenStore
    var loggedIn: bool

    /** `useState(!!getToken())`: a stored, non-empty token resumes the session. */
    constructor (store: TokenStore)
      ensures this.store == store && store.token == old(store.token)
      ensures loggedIn == Truthy(store.token)
    {
      this.store := store;
      var t := store.GetToken();
      loggedIn := Truthy(t);
    }

    /** The screen the gate renders. */
    function Rendered(): (s: Screen)
      reads this
      ensures s == DashboardScreen <==> loggedIn
      ensures s == LoginScreen <==> !loggedIn
    {
      if loggedIn then DashboardScreen else LoginScreen
    }

    method HandleLogin()
      modifies this
      ensures loggedIn && Rendered() == DashboardScreen
      ensures store.token == old(store.token)
    {
      loggedIn := true;
    }

    /** Removes the token first, then drops the flag. */
    method HandleLogout()
      modifies this, store
      ensures store.token == None && !loggedIn && Rendered() == LoginScreen
    {
      store.RemoveToken();
      loggedIn := false;
    }
  }

  /** A successful login request: the Login screen saves the returned token, then calls
      `onLogin`, which is the gate's `handleLogin`. */
  method LoginSucceeded(s: Session, token: string)
    modifies s, s.store
    ensures s.store.token == Some(token) && s.loggedIn && s.Rendered() == DashboardScreen
  {
    s.store.SaveToken(token);
    s.HandleLogin();
  }

  /** Logging out a second time leaves the state as the first logout left it. */
  method LogoutTwice(s: Session)
    modifies s, s.store
    ensures s.store.token == None && !s.loggedIn
  {
    s.HandleLogout();
    var token, flag := s.store.token, s.loggedIn;
    s.HandleLogout();
    assert s.store.token == token && s.loggedIn == flag;
  }

  /** A page reload after logout initialises a gate that shows the Login screen. */
  method ReloadAfterLogout(s: Session) returns (reloaded: Session)
    modifies s, s.store
    ensures s.store.token == None && !s.loggedIn
    ensures fresh(reloaded) && reloaded.store == s.store && !reloaded.loggedIn
    ensures reloaded.Rendered() == LoginScreen
  {
    s.HandleLogout();
    reloaded := new Session(s.store);
  }
}
