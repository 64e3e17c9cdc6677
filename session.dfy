/** The session token and how the API routes recover the signed-in user from
    it. The token is a JSON Web Token (RFC 7519) signed with HS256 (section 3.2
    of RFC 7518) by the jose library; signing and verification are left
    uninterpreted, as the two fields of `Jose`. */
module Session {
  import opened Base
  import opened Http

  /** Name of the cookie that carries the token. */
  const AuthCookie := "auth_token"

  /** The protected header the login route sets. */
  datatype JwtHeader = JwtHeader(alg: string)

  /** The claims of a token: `userId` and `email` as the login route puts
      them, and the `exp` claim (section 4.1.4 of RFC 7519), in seconds. */
  datatype JwtPayload = JwtPayload(userId: Option<string>, email: Option<string>, exp: Option<int>)

  /** jose's `SignJWT(...).sign(secret)` and `jwtVerify(token, secret)` at a
      given time; `verify` yields no claims where jose throws. */
  datatype Jose = Jose(
    sign: (JwtHeader, JwtPayload, string) -> string,
    verify: (string, string, int) -> Option<JwtPayload>)

  /** Library assumption, used only as a hypothesis: a token jose signed
      verifies under the same secret, with its own claims, until the time
      named in its `exp` claim. */
  ghost predicate RoundTrips(jose: Jose) {
    forall h: JwtHeader, p: JwtPayload, secret: string, now: int {:trigger jose.verify(jose.sign(h, p, secret), secret, now)} ::
      p.exp.Some? && now < p.exp.value ==> jose.verify(jose.sign(h, p, secret), secret, now) == Some(p)
  }

  /** Library assumption, used only as a hypothesis: a compact JWS is never
      the empty string. */
  ghost predicate SignsNonEmpty(jose: Jose) {
    forall h: JwtHeader, p: JwtPayload, secret: string :: jose.sign(h, p, secret) != ""
  }

  /** `request.cookies.get("auth_token")?.value` followed by the `!token`
      test: a missing cookie and an empty one both count as no token. */
  function SessionToken(cookies: Cookies): (t: Option<string>)
    ensures t.Some? <==> AuthCookie in cookies && cookies[AuthCookie] != ""
    ensures t.Some? ==> t.value == cookies[AuthCookie] && t.value != ""
  {
    if AuthCookie in cookies && cookies[AuthCookie] != "" then Some(cookies[AuthCookie]) else None
  }

  /** The `getUserId` helper: the `userId` claim of a token that verifies,
      and nothing when the cookie is missing or empty or the token fails
      verification (a bad signature, an expired `exp`, a malformed token). */
  function GetUserId(cookies: Cookies, env: Env, jose: Jose): (r: Option<string>)
    ensures SessionToken(cookies).None? ==> r.None?
    ensures SessionToken(cookies).Some? && jose.verify(SessionToken(cookies).value, env.jwtSecret, env.now).None? ==> r.None?
    ensures r.Some? <==>
              && AuthCookie in cookies && cookies[AuthCookie] != ""
              && jose.verify(cookies[AuthCookie], env.jwtSecret, env.now).Some?
              && jose.verify(cookies[AuthCookie], env.jwtSecret, env.now).value.userId.Some?
    ensures r.Some? ==> r == jose.verify(cookies[AuthCookie], env.jwtSecret, env.now).value.userId
  {
    match SessionToken(cookies)
    case None => None
    case Some(token) =>
      match jose.verify(token, env.jwtSecret, env.now)
      case None => None
      case Some(payload) => payload.userId
  }

  /** The caller every protected route acts for: `getUserId`'s result when it
      passes the handlers' `if (!userId)` test, so an empty `userId` claim is
      refused as well. */
  function SignedInUser(cookies: Cookies, env: Env, jose: Jose): (r: Option<string>)
    ensures r.Some? ==> r.value != "" && GetUserId(cookies, env, jose) == r
    ensures r.None? ==> GetUserId(cookies, env, jose) in {None, Some("")}
    ensures SessionToken(cookies).None? ==> r.None?
  {
    match GetUserId(cookies, env, jose)
    case Some(uid) => if uid != "" then Some(uid) else None
    case None => None
  }

  /** A cookie jar holding only the session token. */
  function TokenCookies(token: string): (c: Cookies)
    ensures SessionToken(c) == if token == "" then None else Some(token)
  {
    map[AuthCookie := token]
  }
}
