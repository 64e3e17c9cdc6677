/** The login API (app/api/auth/login/route.js): checks a password and
    issues the session token in an HTTP-only cookie. It only reads the store. */
module LoginRoute {
  import opened Base
  import opened Http
  import opened Session
  import opened Users
  import RegisterRoute

  /** The JSON body of a login request. */
  datatype LoginBody = LoginBody(email: Option<string>, password: Option<string>)

  const InvalidCredentials := "Invalid credentials"

  /** `setExpirationTime("24h")` and the cookie's `maxAge`, in seconds. */
  const Lifetime := 86400

  /** The claims signed for a user at time `now`: the id as a string, the
      email, and an expiry 24 hours later. */
  function Claims(u: User, now: int): JwtPayload {
    JwtPayload(Some(u.id), Some(u.email), Some(now + Lifetime))
  }

  /** The session cookie holding `token`. */
  function SessionCookie(token: string, production: bool): Cookie {
    Cookie(AuthCookie, token, true, production, "strict", Lifetime, "/")
  }

  /** The `POST` handler. An unknown email and a wrong password both give 401
      `{ error: "Invalid credentials" }`; an unreadable body, a database failure
      or a missing password (bcrypt's `compare` rejects it) gives 500 "Login
      failed"; otherwise 200 `{ message: "Login successful" }` with the session
      cookie set to an HS256 token for the matched user. */
  function Login(users: seq<User>, body: Option<LoginBody>, env: Env, bcrypt: Bcrypt, jose: Jose): (r: Reply<()>)
    ensures r.status in {200, 401, 500}
    ensures r.status == 401 ==> r == Reply(401, Error(InvalidCredentials), None)
    ensures r.status == 500 ==> r == Reply(500, Error("Login failed"), None)
    ensures body.None? || env.dbFails ==> r == Reply(500, Error("Login failed"), None)
    ensures (body.Some? && !env.dbFails && IndexOfEmail(users, body.value.email) == |users|)
              ==> r == Reply(401, Error(InvalidCredentials), None)
    ensures (&& body.Some? && !env.dbFails && IndexOfEmail(users, body.value.email) < |users|
             && body.value.password.Some?
             && !bcrypt.compare(body.value.password.value, users[IndexOfEmail(users, body.value.email)].password))
              ==> r == Reply(401, Error(InvalidCredentials), None)
    ensures (&& body.Some? && !env.dbFails && IndexOfEmail(users, body.value.email) < |users|
             && body.value.password.None?)
              ==> r == Reply(500, Error("Login failed"), None)
    ensures r.status == 200 <==>
              && body.Some? && !env.dbFails
              && IndexOfEmail(users, body.value.email) < |users|
              && body.value.password.Some?
              && bcrypt.compare(body.value.password.value, users[IndexOfEmail(users, body.value.email)].password)
    ensures r.status == 200 ==>
              var u := users[IndexOfEmail(users, body.value.email)];
              && r.body == Message("Login successful")
              && r.setCookie.Some?
              && r.setCookie.value.name == AuthCookie
              && r.setCookie.value.value
                   == jose.sign(JwtHeader("HS256"), JwtPayload(Some(u.id), Some(u.email), Some(env.now + 86400)), env.jwtSecret)
              && r.setCookie.value.httpOnly
              && r.setCookie.value.secure == env.production
              && r.setCookie.value.sameSite == "strict"
              && r.setCookie.value.maxAge == 86400
              && r.setCookie.value.path == "/"
  {
    if body.None? || env.dbFails then Reply(500, Error("Login failed"), None)
    else
      var k := IndexOfEmail(users, body.value.email);
      if k == |users| then Reply(401, Error(InvalidCredentials), None)
      else if body.value.password.None? then Reply(500, Error("Login failed"), None)
      else if !bcrypt.compare(body.value.password.value, users[k].password) then Reply(401, Error(InvalidCredentials), None)
      else
        var token := jose.sign(JwtHeader("HS256"), Claims(users[k], env.now), env.jwtSecret);
        Reply(200, Message("Login successful"), Some(SessionCookie(token, env.production)))
  }

  /** No distinguishing signal: an unknown email and a known email with the
      wrong password get the same reply, status and body alike. */
  lemma FailuresIndistinguishable(users: seq<User>, unknown: LoginBody, wrong: LoginBody, env: Env, bcrypt: Bcrypt, jose: Jose)
    requires !env.dbFails
    requires IndexOfEmail(users, unknown.email) == |users|
    requires IndexOfEmail(users, wrong.email) < |users| && wrong.password.Some?
    requires !bcrypt.compare(wrong.password.value, users[IndexOfEmail(users, wrong.email)].password)
    ensures Login(users, Some(unknown), env, bcrypt, jose) == Login(users, Some(wrong), env, bcrypt, jose)
    ensures Login(users, Some(unknown), env, bcrypt, jose) == Reply(401, Error(InvalidCredentials), None)
  {
  }

  /** The one case where the two failures differ: without a password in the
      body, a known email gets 500 "Login failed" (bcryptjs's `compare` rejects
      a missing password) while an unknown email gets 401, so the status
      tells a caller whether an email is registered. */
  lemma MissingPasswordDistinguishes(users: seq<User>, known: LoginBody, unknown: LoginBody, env: Env, bcrypt: Bcrypt, jose: Jose)
    requires !env.dbFails
    requires IndexOfEmail(users, known.email) < |users| && known.password.None?
    requires IndexOfEmail(users, unknown.email) == |users| && unknown.password.None?
    ensures Login(users, Some(known), env, bcrypt, jose) == Reply(500, Error("Login failed"), None)
    ensures Login(users, Some(unknown), env, bcrypt, jose) == Reply(401, Error(InvalidCredentials), None)
  {
  }

  /** The cookie a successful login sets signs the caller in: presented back
      before it expires, under the same secret, every protected route acts for
      the matched user. */
  lemma LoginSignsIn(users: seq<User>, body: LoginBody, env: Env, bcrypt: Bcrypt, jose: Jose, later: Env)
    requires RoundTrips(jose) && SignsNonEmpty(jose)
    requires Login(users, Some(body), env, bcrypt, jose).status == 200
    requires users[IndexOfEmail(users, body.email)].id != ""
    requires later.jwtSecret == env.jwtSecret && env.now <= later.now < env.now + Lifetime
    ensures SignedInUser(TokenCookies(Login(users, Some(body), env, bcrypt, jose).setCookie.value.value), later, jose)
            == Some(users[IndexOfEmail(users, body.email)].id)
  {
  }

  /** A user who has just registered can log in with the same email and
      password, given that a password matches its own hash. */
  lemma RegisteredUserCanLogIn(users: seq<User>, reg: RegisterRoute.RegisterBody, id: string,
                               env: Env, bcrypt: Bcrypt, jose: Jose)
    requires MatchesOwnHash(bcrypt)
    requires RegisterRoute.Complete(reg) && !RegisterRoute.EmailTaken(users, reg.email)
    requires !env.dbFails
    ensures Login(users + [RegisterRoute.NewUser(reg, bcrypt, id)], Some(LoginBody(reg.email, reg.password)), env, bcrypt, jose).status
            == 200
  {
    var u := RegisterRoute.NewUser(reg, bcrypt, id);
    var p := (x: User) => x.email == reg.email.value;
    FirstIndexAppend(users, u, p);
    assert IndexOfEmail(users + [u], reg.email) == FirstIndex(users + [u], p);
    assert IndexOfEmail(users, reg.email) == FirstIndex(users, p);
    assert (users + [u])[|users|] == u;
  }
}
