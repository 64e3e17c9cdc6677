/** The parts of Next.js's request/response objects that the routes use. */
module Http {
  import opened Base

  /** Request cookies, by name. */
  type Cookies = map<string, string>

  /** A `Set-Cookie` on a response, with the attributes `response.cookies.set` takes. */
  datatype Cookie = Cookie(
    name: string,
    value: string,
    httpOnly: bool,
    secure: bool,
    sameSite: string,
    maxAge: int,
    path: string)

  /** The JSON body of a reply: `{error}`, `{message}`, a document (or array),
      or the framework's own error page for an exception no handler caught. */
  datatype Body<+T> = Error(error: string) | Message(message: string) | Json(value: T) | Uncaught

  /** A reply built with `NextResponse.json(body, {status})`, possibly carrying one cookie. */
  datatype Reply<+T> = Reply(status: int, body: Body<T>, setCookie: Option<Cookie>)

  /** What a handler reads from its surroundings instead of globals: the
      `JWT_SECRET` setting, the current time in seconds since the epoch,
      whether `NODE_ENV` is "production", and whether the database
      connection or query fails on this request. */
  datatype Env = Env(jwtSecret: string, now: int, production: bool, dbFails: bool)

  /** The 401 every protected API route answers without a signed-in user. */
  function Unauthorized<T>(): Reply<T> {
    Reply(401, Error("Unauthorized"), None)
  }

  /** Next.js's answer (status 500) to an exception that escapes a handler. */
  function Crashed<T>(): Reply<T> {
    Reply(500, Uncaught, None)
  }
}
