/** The registration API (app/api/auth/register/route.js). */
module RegisterRoute {
  import opened Base
  import opened Http
  import opened Users

  /** The JSON body of a registration request. */
  datatype RegisterBody = RegisterBody(name: Option<string>, email: Option<string>, password: Option<string>)

  const Duplicate := "User already exists"
  const Failed := "Error creating user"

  /** Whether a stored user already has the submitted email (`User.findOne({ email })`). */
  predicate EmailTaken(users: seq<User>, email: Option<string>) {
    IndexOfEmail(users, email) < |users|
  }

  /** A body from which a user document can be built: bcrypt's `hash` accepts
      only a string password, and the document needs a name and an email. */
  predicate Complete(body: RegisterBody) {
    body.name.Some? && body.email.Some? && body.password.Some?
  }

  /** The document `User.create` stores: the submitted name and email and the
      hash of the password with cost 10 (that this differs from the password is
      `StoresNoPlaintext`). */
  function NewUser(body: RegisterBody, bcrypt: Bcrypt, id: string): (u: User)
    requires Complete(body)
    ensures u.id == id && u.name == body.name.value && u.email == body.email.value
    ensures u.password == bcrypt.hash(body.password.value, SaltRounds)
    ensures u.gender.None?
  {
    User(id, body.name.value, body.email.value, bcrypt.hash(body.password.value, SaltRounds), None)
  }

  /** For a hash that never returns its input, the stored password is never
      the submitted one. */
  lemma StoresNoPlaintext(body: RegisterBody, bcrypt: Bcrypt, id: string)
    requires Complete(body)
    requires forall p: string :: bcrypt.hash(p, SaltRounds) != p
    ensures NewUser(body, bcrypt, id).password != body.password.value
  {
  }

  /** The `POST` handler. A taken email gives 400 "User already exists"; an
      unreadable or incomplete body, a database failure, or a generated id
      already in use gives 500 "Error creating user" (every exception inside
      the handler lands there); otherwise exactly one user is appended and the
      reply is 201 `{ message: "User created" }`, with no user data in it.
      Under one request at a time this keeps emails unique. */
  method Register(store: UserStore, body: Option<RegisterBody>, env: Env, bcrypt: Bcrypt, newId: string)
    returns (r: Reply<()>)
    requires store.Valid()
    modifies store
    ensures store.Valid()
    ensures r == Reply(201, Message("User created"), None)
            || r == Reply(400, Error(Duplicate), None)
            || r == Reply(500, Error(Failed), None)
    ensures r.status == 400 <==> body.Some? && !env.dbFails && EmailTaken(old(store.users), body.value.email)
    ensures r.status == 201 <==>
              && body.Some? && !env.dbFails && !EmailTaken(old(store.users), body.value.email)
              && Complete(body.value) && IndexOfId(old(store.users), newId) == |old(store.users)|
    ensures r.status == 201 ==> store.users == old(store.users) + [NewUser(body.value, bcrypt, newId)]
    ensures r.status != 201 ==> store.users == old(store.users)
  {
    if body.None? || env.dbFails {
      return Reply(500, Error(Failed), None);
    }
    var b := body.value;
    if EmailTaken(store.users, b.email) {
      return Reply(400, Error(Duplicate), None);
    }
    if !Complete(b) || IndexOfId(store.users, newId) < |store.users| {
      return Reply(500, Error(Failed), None);
    }
    var u := NewUser(b, bcrypt, newId);
    AppendKeepsUnique(store.users, u);
    store.users := store.users + [u];
    r := Reply(201, Message("User created"), None);
  }

  /** Appending a user whose id and email are both unused keeps ids and emails unique. */
  lemma AppendKeepsUnique(users: seq<User>, u: User)
    requires UniqueIds(users) && UniqueEmails(users)
    requires IndexOfEmail(users, Some(u.email)) == |users|
    requires IndexOfId(users, u.id) == |users|
    ensures UniqueIds(users + [u]) && UniqueEmails(users + [u])
  {
  }
}
