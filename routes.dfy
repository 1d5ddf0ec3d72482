/**
 * Which handler a `GET` request reaches. Express tries the routes in the
 * order they are registered, and `/:code` comes last, so it only sees paths
 * that no earlier route took.
 */
module Routes {
  import opened Gates

  datatype GetRoute =
    | LoginForm
    | RegisterForm
    | DashboardPage
    | AdminPanel
    | LogoutPage
    | ResolveCode(code: string)
    | NoRoute

  /** A path of one non-empty segment: what `/:code` matches. */
  predicate OneSegment(path: string)
  {
    |path| > 1 && path[0] == '/' && '/' !in path[1..]
  }

  /** The codes whose `/:code` path an earlier `GET` route takes. */
  predicate Reserved(code: string)
  {
    code == "register" || code == "dashboard" || code == "admin" || code == "logout"
  }

  /**
   * Dispatch of a `GET` path over the routes in registration order, with
   * exact matching: no case folding, no trailing-slash tolerance and no
   * percent-decoding of the code. The static file server that runs first
   * is taken to hold no file whose name is a path tried here.
   */
  function Route(path: string): (r: GetRoute)
    ensures r.ResolveCode? ==> OneSegment(path) && r.code == path[1..]
  {
    if path == "/" then LoginForm
    else if path == "/register" then RegisterForm
    else if path == "/dashboard" then DashboardPage
    else if path == "/admin" then AdminPanel
    else if path == "/logout" then LogoutPage
    else if OneSegment(path) then ResolveCode(path[1..])
    else NoRoute
  }

  /** A code reaches the resolver through its path exactly when no earlier route takes that path. */
  lemma CodeReachesResolver(code: string)
    requires code != [] && '/' !in code
    ensures Route("/" + code) == ResolveCode(code) <==> !Reserved(code)
  {
    var path := "/" + code;
    assert path[1..] == code;
  }

  /**
   * Under exact matching, no path makes the resolver see a reserved code.
   * (Express percent-decodes `:code`, so `/%61dmin` would still reach it.)
   */
  lemma ReservedCodesUnreachable(code: string, path: string)
    requires Reserved(code)
    ensures Route(path) != ResolveCode(code)
  {
    if Route(path) == ResolveCode(code) {
      assert path == "/" + path[1..];
      CodeReachesResolver(code);
    }
  }

  /** As written, the login gate's redirect target is not the login form but the link resolver. */
  lemma LoginRedirectAsWrittenMisses()
    ensures RequireLoginAsWritten(Wrappers.None).Deny?
    ensures Route(RequireLoginAsWritten(Wrappers.None).denial.path) == ResolveCode("login")
  {
    assert LoginPathAsWritten[1..] == "login";
  }

  /** The corrected login gate sends an anonymous request to the login form. */
  lemma LoginRedirectReachesForm()
    ensures RequireLogin(Wrappers.None).Deny?
    ensures Route(RequireLogin(Wrappers.None).denial.path) == LoginForm
  {
  }
}
