/** The page guard that runs in front of the dashboard pages (middleware.js). */
module Middleware {
  import opened Base
  import opened Http
  import opened Session

  /** Outcome of the guard: let the request through (`NextResponse.next()`)
      or redirect the browser. */
  datatype Decision = Next | Redirect(location: string)

  const LoginPage := "/login"
  const ProtectedPrefix := "/dashboard"

  /** JavaScript's `s.startsWith(prefix)`. */
  predicate StartsWith(s: string, prefix: string) {
    |prefix| <= |s| && s[..|prefix|] == prefix
  }

  /** Whether the token in the cookies is present and verifies; the claims
      themselves are never looked at. */
  predicate TokenVerifies(cookies: Cookies, env: Env, jose: Jose) {
    SessionToken(cookies).Some? && jose.verify(SessionToken(cookies).value, env.jwtSecret, env.now).Some?
  }

  /** The `middleware` function: only paths under "/dashboard" are guarded,
      and a guarded request without a token, or with one that fails
      verification, is sent to the login page. The guard never answers 401. */
  function Guard(path: string, cookies: Cookies, env: Env, jose: Jose): (d: Decision)
    ensures d == Next || d == Redirect(LoginPage)
    ensures !StartsWith(path, ProtectedPrefix) ==> d == Next
    ensures StartsWith(path, ProtectedPrefix) && SessionToken(cookies).None? ==> d == Redirect(LoginPage)
    ensures (StartsWith(path, ProtectedPrefix) && SessionToken(cookies).Some? && !TokenVerifies(cookies, env, jose))
              ==> d == Redirect(LoginPage)
    ensures d == Next <==> !StartsWith(path, ProtectedPrefix) || TokenVerifies(cookies, env, jose)
  {
    var token := SessionToken(cookies);
    if StartsWith(path, ProtectedPrefix) then
      if token.None? then Redirect(LoginPage)
      else if jose.verify(token.value, env.jwtSecret, env.now).Some? then Next
      else Redirect(LoginPage)
    else Next
  }

  /** The decision depends on the path, on whether a token is present and
      on whether it verifies, and on nothing else: two verifiers that agree on
      success give the same decision, whatever claims they return. */
  lemma GuardIgnoresClaims(path: string, cookies: Cookies, env: Env, jose1: Jose, jose2: Jose)
    requires TokenVerifies(cookies, env, jose1) == TokenVerifies(cookies, env, jose2)
    ensures Guard(path, cookies, env, jose1) == Guard(path, cookies, env, jose2)
  {
  }

  /** The guard admits any verified token without a (non-empty) `userId`
      claim, which every API route then answers with 401: passing the guard
      does not imply being signed in. */
  lemma GuardWeakerThanApi(path: string, cookies: Cookies, env: Env, jose: Jose)
    requires StartsWith(path, ProtectedPrefix)
    requires SessionToken(cookies).Some?
    requires jose.verify(SessionToken(cookies).value, env.jwtSecret, env.now).Some?
    requires jose.verify(SessionToken(cookies).value, env.jwtSecret, env.now).value.userId in {None, Some("")}
    ensures Guard(path, cookies, env, jose) == Next
    ensures SignedInUser(cookies, env, jose).None?
  {
  }

  /** A request the guard lets into the dashboard with a token that carries a
      non-empty `userId` is one the API routes accept as that user. */
  lemma GuardAndApiAgree(path: string, cookies: Cookies, env: Env, jose: Jose, uid: string)
    requires StartsWith(path, ProtectedPrefix)
    requires uid != ""
    requires SessionToken(cookies).Some?
    requires jose.verify(SessionToken(cookies).value, env.jwtSecret, env.now).Some?
    requires jose.verify(SessionToken(cookies).value, env.jwtSecret, env.now).value.userId == Some(uid)
    ensures Guard(path, cookies, env, jose) == Next
    ensures SignedInUser(cookies, env, jose) == Some(uid)
  {
  }
}
