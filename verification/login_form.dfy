/**
 * The sign-in form: the email pattern it checks, the "invalid email" flag it
 * shows while typing, and the submit handler that checks the fields in order
 * before calling the authentication context's `login`.
 */
module LoginForm {
  import opened Wrappers
  import opened Text
  import opened Session

  // ---------------------------------------------------------------------------
  // The email pattern ^[A-Z0-9._%+-]+@[A-Z0-9.-]+\.[A-Z]{2,4}$ with the i flag
  // ---------------------------------------------------------------------------

  /** An ASCII letter; with the i flag the class A-Z takes both cases and nothing outside ASCII. */
  predicate AsciiLetter(c: char)
  {
    'A' <= c <= 'Z' || 'a' <= c <= 'z'
  }

  predicate AsciiAlnum(c: char)
  {
    AsciiLetter(c) || '0' <= c <= '9'
  }

  /** The characters allowed before the '@'. */
  predicate LocalChar(c: char)
  {
    AsciiAlnum(c) || c == '.' || c == '_' || c == '%' || c == '+' || c == '-'
  }

  /** The characters allowed between the '@' and the final dot. */
  predicate DomainChar(c: char)
  {
    AsciiAlnum(c) || c == '.' || c == '-'
  }

  /**
   * `s` reads as local '@' domain '.' tld with the '@' at `at` and the final
   * dot at `dot`: a non-empty local part, a non-empty domain, and two to four
   * letters at the end.
   */
  predicate EmailSplitAt(s: string, at: int, dot: int)
  {
    && 0 < at && at + 1 < dot < |s|
    && s[at] == '@' && s[dot] == '.'
    && (forall k :: 0 <= k < at ==> LocalChar(s[k]))
    && (forall k :: at < k < dot ==> DomainChar(s[k]))
    && 2 <= |s| - dot - 1 <= 4
    && (forall k :: dot < k < |s| ==> AsciiLetter(s[k]))
  }

  /** The language of the pattern: some placement of the '@' and the final dot fits. */
  ghost predicate MatchesEmailPattern(s: string)
  {
    exists at, dot :: EmailSplitAt(s, at, dot)
  }

  /** The index of the last `c` in `s`. */
  function LastIndexOf(s: string, c: char): (i: Option<nat>)
    ensures i.None? <==> c !in s
    ensures i.Some? ==> i.value < |s| && s[i.value] == c && forall k :: i.value < k < |s| ==> s[k] != c
  {
    if s == [] then None
    else if s[|s| - 1] == c then Some(|s| - 1)
    else
      var rest := LastIndexOf(s[..|s| - 1], c);
      assert forall k :: 0 <= k < |s| - 1 ==> s[..|s| - 1][k] == s[k];
      rest
  }

  /** Any fitting placement is the first '@' and the last dot: neither part after them may hold another. */
  lemma {:induction false} SplitIsFirstAtAndLastDot(s: string, at: int, dot: int)
    requires EmailSplitAt(s, at, dot)
    ensures FirstIndexOf(s, '@') == Some(at)
    ensures LastIndexOf(s, '.') == Some(dot)
  {
    assert s[at] == '@' && s[dot] == '.';
  }

  /** `validateEmail`: locate the first '@' and the last dot, and check the three parts around them. */
  function ValidateEmail(email: string): (ok: bool)
    ensures ok <==> MatchesEmailPattern(email)
  {
    var at := FirstIndexOf(email, '@');
    var dot := LastIndexOf(email, '.');
    if at.Some? && dot.Some? && EmailSplitAt(email, at.value, dot.value) then
      true
    else
      assert !MatchesEmailPattern(email) by {
        if MatchesEmailPattern(email) {
          var i, j :| EmailSplitAt(email, i, j);
          SplitIsFirstAtAndLastDot(email, i, j);
        }
      }
      false
  }

  /** `isInvalid`: the field is flagged only when it holds text that does not fit; an empty field is never flagged. */
  function IsInvalid(email: string): (flagged: bool)
    ensures flagged <==> email != "" && !MatchesEmailPattern(email)
  {
    email != "" && !ValidateEmail(email)
  }

  /** Sample: a plain address with a dotted local part, a plus sign and a hyphenated domain fits. */
  lemma PlainAddressAccepted()
    ensures MatchesEmailPattern("a.b+c@x-y.co.uk")
  {
    assert EmailSplitAt("a.b+c@x-y.co.uk", 5, 12);
  }

  /** Sample: a one-letter ending does not fit. */
  lemma ShortEndingRejected()
    ensures !MatchesEmailPattern("a@b.c")
  {
  }

  /** Sample: a five-letter ending does not fit. */
  lemma LongEndingRejected()
    ensures !MatchesEmailPattern("a@b.cdefg")
  {
  }

  /** Sample: an empty local part does not fit. */
  lemma MissingLocalPartRejected()
    ensures !MatchesEmailPattern("@b.com")
  {
  }

  /** Sample: a second '@' does not fit. */
  lemma SecondAtRejected()
    ensures !MatchesEmailPattern("a@b@c.com")
  {
    var s := "a@b@c.com";
    forall at, dot
      ensures !EmailSplitAt(s, at, dot)
    {
      if 0 < at < 3 && 3 < dot {
        assert !DomainChar(s[3]);
      }
      if at > 1 {
        assert !LocalChar(s[1]);
      }
    }
  }

  // ---------------------------------------------------------------------------
  // The form
  // ---------------------------------------------------------------------------

  const EmptyCredentials := "Email and password cannot be empty"
  const InvalidEmailFormat := "Invalid email format"

  /** The form's state, with the authentication context and router it uses. */
  class Form {
    var email: string
    var password: string
    var isError: bool
    var errorMessage: string
    var isLoading: bool
    const auth: AuthProvider
    const router: Router

    /** Between submissions the form is never loading, and it navigates with the same router as the context. */
    predicate Valid()
      reads this, auth
    {
      !isLoading && auth.router == router && auth.Valid()
    }

    constructor(auth: AuthProvider)
      requires auth.Valid()
      ensures Valid()
      ensures email == "" && password == "" && !isError && errorMessage == "" && !isLoading
      ensures this.auth == auth
    {
      email := "";
      password := "";
      isError := false;
      errorMessage := "";
      isLoading := false;
      this.auth := auth;
      router := auth.router;
    }

    /** Typing in the email field. */
    method SetEmail(text: string)
      modifies this
      ensures email == text
      ensures password == old(password) && isError == old(isError) && errorMessage == old(errorMessage)
      ensures isLoading == old(isLoading)
    {
      email := text;
    }

    /** Typing in the password field. */
    method SetPassword(text: string)
      modifies this
      ensures password == text
      ensures email == old(email) && isError == old(isError) && errorMessage == old(errorMessage)
      ensures isLoading == old(isLoading)
    {
      password := text;
    }

    /**
     * `handleSubmit`: an empty field stops with one message, an email that
     * does not fit stops with another, and only then is `login` called. A
     * login that throws shows its message; a successful one navigates home.
     * The form is not loading once the attempt is over.
     */
    method HandleSubmit(server: LoginRequest -> AuthReply, stringify: User -> string) returns (loginCalled: bool)
      requires Valid()
      modifies this, auth, router
      ensures Valid()
      ensures email == old(email) && password == old(password)
      ensures loginCalled <==> email != "" && password != "" && MatchesEmailPattern(email)
      ensures (email == "" || password == "") ==>
        isError && errorMessage == "Email and password cannot be empty"
      ensures email != "" && password != "" && !MatchesEmailPattern(email) ==>
        isError && errorMessage == "Invalid email format"
      ensures !loginCalled ==> auth.State() == old(auth.State()) && router.history == old(router.history)
      ensures loginCalled ==>
        match server(LoginRequest(auth.apiUrl + "/api/auth/local", email, password))
        case Accepted(jwt, u) =>
          && auth.State() == LoggedIn(old(auth.State()), jwt, u, stringify)
          && router.history == old(router.history) + ["/", "/"]
          && isError == old(isError) && errorMessage == old(errorMessage)
        case Rejected(message) =>
          && auth.State() == old(auth.State())
          && router.history == old(router.history)
          && isError && errorMessage == LoginError(message)
    {
      if email == "" || password == "" {
        isError := true;
        errorMessage := EmptyCredentials;
        return false;
      }
      if !ValidateEmail(email) {
        isError := true;
        errorMessage := InvalidEmailFormat;
        return false;
      }
      isLoading := true;
      var error := auth.Login(email, password, server, stringify);
      if error.None? {
        router.Push(HomePath);
      } else {
        isError := true;
        errorMessage := error.value;
      }
      isLoading := false;
      loginCalled := true;
    }
  }
}
