/**
 * The authentication context: whether a user is signed in, who, and with
 * which bearer token, kept in step with the "token" and "user" cookies. Three
 * operations drive it: restoring a session from the cookies, logging in
 * against the API's local-credentials endpoint, and logging out.
 */
module Session {
  import opened Wrappers

  datatype User = User(id: int, documentId: int, username: string, email: string)

  /** A cookie as the browser keeps it: its text and, when the client set it, its lifetime in days. */
  datatype Cookie = Cookie(value: string, expiresInDays: Option<int>)

  const TokenCookie := "token"
  const UserCookie := "user"
  const CookieLifetimeDays := 7
  const DefaultApiUrl := "http://localhost:1337"
  const LoginPath := "/api/auth/local"
  const HomePath := "/"
  const LoginPagePath := "/login"
  const LoginFailed := "Login failed"
  const OutsideProvider := "useAuth must be used within an AuthProvider"

  /** The three state fields of the provider together with the cookie jar. */
  datatype SessionState = SessionState(isAuthenticated: bool, user: Option<User>, token: string, cookies: map<string, Cookie>)

  /** The body posted to the login endpoint, with the address it goes to. */
  datatype LoginRequest = LoginRequest(url: string, identifier: string, password: string)

  /** The server's answer to a login: a token and the user, or an error with the server's message when it sent one. */
  datatype AuthReply = Accepted(jwt: string, user: User) | Rejected(message: Option<string>)

  /** The signed-out state. */
  predicate Anonymous(s: SessionState)
  {
    !s.isAuthenticated && s.user.None? && s.token == ""
  }

  /** What every reachable state satisfies: signed out means no user and no token. */
  predicate Coherent(s: SessionState)
  {
    !s.isAuthenticated ==> s.user.None? && s.token == ""
  }

  /** `Cookies.get(name)` is truthy: the cookie is there and its text is not empty. */
  predicate HasCookie(cookies: map<string, Cookie>, name: string)
  {
    name in cookies && cookies[name].value != ""
  }

  /** Both session cookies are there. */
  predicate HasSessionCookies(cookies: map<string, Cookie>)
  {
    HasCookie(cookies, TokenCookie) && HasCookie(cookies, UserCookie)
  }

  /** The state a provider starts in, over whatever cookies the browser holds. */
  function Initial(cookies: map<string, Cookie>): (s: SessionState)
    ensures Anonymous(s) && s.cookies == cookies
  {
    SessionState(false, None, "", cookies)
  }

  /**
   * The restore effect: with both cookies present the state becomes signed in
   * with the cookie's token and the parsed user; otherwise nothing changes.
   * When the user cookie does not parse, the parse throws after the flag and
   * the token were set, and the user is left as it was.
   */
  function Restored(s: SessionState, parse: string -> Option<User>): (r: SessionState)
    ensures r.cookies == s.cookies
    ensures !HasSessionCookies(s.cookies) ==> r == s
    ensures HasSessionCookies(s.cookies) ==>
      && r.isAuthenticated
      && r.token == s.cookies[TokenCookie].value
      && r.user == (if parse(s.cookies[UserCookie].value).Some? then parse(s.cookies[UserCookie].value) else s.user)
  {
    if HasSessionCookies(s.cookies) then
      var parsed := parse(s.cookies[UserCookie].value);
      s.(isAuthenticated := true, token := s.cookies[TokenCookie].value, user := if parsed.Some? then parsed else s.user)
    else s
  }

  /** The restore effect throws exactly when both cookies are there and the user cookie does not parse. */
  predicate RestoreThrows(s: SessionState, parse: string -> Option<User>)
  {
    HasSessionCookies(s.cookies) && parse(s.cookies[UserCookie].value).None?
  }

  /** The two cookies a successful login writes, each kept for seven days. */
  function SessionCookies(cookies: map<string, Cookie>, jwt: string, userText: string): (jar: map<string, Cookie>)
    ensures jar.Keys == cookies.Keys + {TokenCookie, UserCookie}
    ensures jar[TokenCookie] == Cookie(jwt, Some(7)) && jar[UserCookie] == Cookie(userText, Some(7))
    ensures forall k :: k in cookies && k != TokenCookie && k != UserCookie ==> jar[k] == cookies[k]
  {
    cookies[TokenCookie := Cookie(jwt, Some(CookieLifetimeDays))][UserCookie := Cookie(userText, Some(CookieLifetimeDays))]
  }

  /** A successful login: both cookies written, then signed in as the returned user with the returned token. */
  function LoggedIn(s: SessionState, jwt: string, user: User, stringify: User -> string): (r: SessionState)
    ensures r.isAuthenticated && r.user == Some(user) && r.token == jwt
    ensures r.cookies == SessionCookies(s.cookies, jwt, stringify(user))
  {
    SessionState(true, Some(user), jwt, SessionCookies(s.cookies, jwt, stringify(user)))
  }

  /** The message a failed login throws: the server's message when it sent a non-empty one, "Login failed" otherwise. */
  function LoginError(message: Option<string>): (text: string)
    ensures text != ""
    ensures message.Some? && message.value != "" ==> text == message.value
    ensures message.None? || message.value == "" ==> text == "Login failed"
  {
    if message.Some? && message.value != "" then message.value else LoginFailed
  }

  /** Logging out: both session cookies removed, every other cookie kept, and the signed-out state. */
  function LoggedOut(s: SessionState): (r: SessionState)
    ensures Anonymous(r)
    ensures r.cookies.Keys == s.cookies.Keys - {TokenCookie, UserCookie}
    ensures forall k :: k in r.cookies ==> r.cookies[k] == s.cookies[k]
  {
    SessionState(false, None, "", s.cookies - {TokenCookie, UserCookie})
  }

  /** `useAuth`: the context, or the error thrown when no provider is above the caller. */
  function UseAuth<T>(context: Option<T>): (r: Result<T, string>)
    ensures r.Success? <==> context.Some?
    ensures r.Success? ==> r.value == context.value
    ensures r.Failure? ==> r.error == "useAuth must be used within an AuthProvider"
  {
    if context.Some? then Success(context.value) else Failure(OutsideProvider)
  }

  /** Logging out twice leaves the same state as logging out once. */
  lemma LogoutIdempotent(s: SessionState)
    ensures LoggedOut(LoggedOut(s)) == LoggedOut(s)
  {
    assert LoggedOut(LoggedOut(s)).cookies == LoggedOut(s).cookies;
  }

  /** After a logout there is nothing to restore: the restore effect leaves the signed-out state alone. */
  lemma RestoreAfterLogout(s: SessionState, parse: string -> Option<User>)
    ensures Restored(LoggedOut(s), parse) == LoggedOut(s)
    ensures !RestoreThrows(LoggedOut(s), parse)
  {
    assert TokenCookie !in LoggedOut(s).cookies;
  }

  /**
   * A reload keeps the login: a fresh provider restoring from the cookies a
   * successful login wrote reaches the same state, provided the user text
   * reads back as the user and the token is not empty.
   */
  lemma ReloadKeepsLogin(s: SessionState, jwt: string, user: User, stringify: User -> string, parse: string -> Option<User>)
    requires jwt != "" && stringify(user) != "" && parse(stringify(user)) == Some(user)
    ensures var after := LoggedIn(s, jwt, user, stringify);
      Restored(Initial(after.cookies), parse) == after
  {
  }

  /** Restoring right after a login changes nothing. */
  lemma RestoreAfterLogin(s: SessionState, jwt: string, user: User, stringify: User -> string, parse: string -> Option<User>)
    requires jwt != "" && stringify(user) != "" && parse(stringify(user)) == Some(user)
    ensures var after := LoggedIn(s, jwt, user, stringify);
      Restored(after, parse) == after
  {
  }

  /** Every operation keeps a coherent state coherent. */
  lemma OperationsKeepCoherent(s: SessionState, parse: string -> Option<User>, jwt: string, user: User, stringify: User -> string)
    requires Coherent(s)
    ensures Coherent(Restored(s, parse))
    ensures Coherent(LoggedIn(s, jwt, user, stringify))
    ensures Coherent(LoggedOut(s))
  {
  }

  /** The client-side router, reduced to the paths it was asked to navigate to. */
  class Router {
    var history: seq<string>

    constructor()
      ensures history == []
    {
      history := [];
    }

    /** `router.push(path)`. */
    method Push(path: string)
      modifies this
      ensures history == old(history) + [path]
    {
      history := history + [path];
    }
  }

  /** `AuthProvider`: the session fields, the browser's cookie jar, and the router it navigates with. */
  class AuthProvider {
    /** The API address: the configured one, or the local development server when none is configured. */
    const apiUrl: string
    const router: Router
    var isAuthenticated: bool
    var user: Option<User>
    var token: string
    var cookies: map<string, Cookie>

    function State(): SessionState
      reads this
    {
      SessionState(isAuthenticated, user, token, cookies)
    }

    predicate Valid()
      reads this
    {
      Coherent(State())
    }

    /** A provider starts signed out, whatever cookies the browser holds. */
    constructor(configuredUrl: string, router: Router, cookies: map<string, Cookie>)
      ensures Valid() && State() == Initial(cookies)
      ensures apiUrl == if configuredUrl != "" then configuredUrl else "http://localhost:1337"
      ensures this.router == router
    {
      apiUrl := if configuredUrl != "" then configuredUrl else DefaultApiUrl;
      this.router := router;
      isAuthenticated := false;
      user := None;
      token := "";
      this.cookies := cookies;
    }

    /** The restore effect; `threw` reports the exception `JSON.parse` raises on a malformed user cookie. */
    method Restore(parse: string -> Option<User>) returns (threw: bool)
      requires Valid()
      modifies this
      ensures Valid()
      ensures State() == Restored(old(State()), parse)
      ensures threw == RestoreThrows(old(State()), parse)
    {
      threw := false;
      if HasCookie(cookies, TokenCookie) && HasCookie(cookies, UserCookie) {
        var tokenText := cookies[TokenCookie].value;
        var userText := cookies[UserCookie].value;
        isAuthenticated := true;
        token := tokenText;
        var parsed := parse(userText);
        if parsed.None? {
          threw := true;
          return;
        }
        user := parsed;
      }
    }

    /**
     * `login`: post the credentials; on success write both cookies, sign in
     * and navigate home; on failure throw the server's message (or "Login
     * failed") and change nothing.
     */
    method Login(email: string, password: string, server: LoginRequest -> AuthReply, stringify: User -> string)
      returns (error: Option<string>)
      requires Valid()
      modifies this, router
      ensures Valid()
      ensures var reply := server(LoginRequest(apiUrl + "/api/auth/local", email, password));
        match reply
        case Accepted(jwt, u) =>
          && error.None?
          && State() == LoggedIn(old(State()), jwt, u, stringify)
          && router.history == old(router.history) + ["/"]
        case Rejected(message) =>
          && error == Some(LoginError(message))
          && State() == old(State())
          && router.history == old(router.history)
    {
      var reply := server(LoginRequest(apiUrl + LoginPath, email, password));
      match reply {
        case Accepted(jwt, u) =>
          cookies := cookies[TokenCookie := Cookie(jwt, Some(CookieLifetimeDays))];
          cookies := cookies[UserCookie := Cookie(stringify(u), Some(CookieLifetimeDays))];
          isAuthenticated := true;
          user := Some(u);
          token := jwt;
          router.Push(HomePath);
          error := None;
        case Rejected(message) =>
          error := Some(LoginError(message));
      }
    }

    /** `logout`: remove both cookies, sign out and navigate to the login page. */
    method Logout()
      requires Valid()
      modifies this, router
      ensures Valid()
      ensures State() == LoggedOut(old(State()))
      ensures router.history == old(router.history) + ["/login"]
    {
      cookies := cookies - {TokenCookie};
      cookies := cookies - {UserCookie};
      isAuthenticated := false;
      token := "";
      user := None;
      router.Push(LoginPagePath);
    }
  }
}
