/** The users collection shared by the registration, login and profile routes. */
module Users {
  import opened Base

  /** A stored user. `password` holds the bcrypt hash; `gender` is `None`
      until the profile route sets it (the schema's default applies then). */
  datatype User = User(id: string, name: string, email: string, password: string, gender: Option<string>)

  /** A user as the API returns it: `.select("-password")` drops the hash. */
  datatype PublicUser = PublicUser(id: string, name: string, email: string, gender: Option<string>)

  function Public(u: User): (v: PublicUser)
    ensures v.id == u.id && v.name == u.name && v.email == u.email && v.gender == u.gender
  {
    PublicUser(u.id, u.name, u.email, u.gender)
  }

  /** bcryptjs's `hash(password, rounds)` and `compare(password, hash)`, uninterpreted. */
  datatype Bcrypt = Bcrypt(hash: (string, nat) -> string, compare: (string, string) -> bool)

  /** The cost factor the registration route passes to `hash`. */
  const SaltRounds: nat := 10

  /** Library assumption, used only as a hypothesis: a password matches its own hash. */
  ghost predicate MatchesOwnHash(bcrypt: Bcrypt) {
    forall p: string :: bcrypt.compare(p, bcrypt.hash(p, SaltRounds))
  }

  ghost predicate UniqueIds(users: seq<User>) {
    forall i, j :: 0 <= i < j < |users| ==> users[i].id != users[j].id
  }

  /** At most one user per email. */
  ghost predicate UniqueEmails(users: seq<User>) {
    forall i, j :: 0 <= i < j < |users| ==> users[i].email != users[j].email
  }

  /** `User.findOne({ email })`: the position of the first user with that
      email, or `|users|`. Mongoose drops a filter key whose value is
      `undefined`, so an absent email leaves the filter `{}`, which matches
      the first stored user. */
  function IndexOfEmail(users: seq<User>, email: Option<string>): (k: nat)
    ensures k <= |users|
    ensures email.Some? ==> (k < |users| <==> exists i :: 0 <= i < |users| && users[i].email == email.value)
    ensures email.Some? && k < |users| ==> users[k].email == email.value
    ensures email.None? ==> k == 0
  {
    match email
    case None => 0
    case Some(e) => FirstIndex(users, (u: User) => u.email == e)
  }

  /** `User.findById(id)`: the position of the user with that id, or `|users|`. */
  function IndexOfId(users: seq<User>, id: string): (k: nat)
    ensures k <= |users|
    ensures k < |users| <==> exists i :: 0 <= i < |users| && users[i].id == id
    ensures k < |users| ==> users[k].id == id
  {
    FirstIndex(users, (u: User) => u.id == id)
  }

  /** With unique emails, the user `findOne` picks is the only one with that email. */
  lemma IndexOfEmailUnique(users: seq<User>, i: nat)
    requires UniqueEmails(users)
    requires i < |users|
    ensures IndexOfEmail(users, Some(users[i].email)) == i
  {
  }

  /** The users collection, in insertion order. */
  class UserStore {
    var users: seq<User>

    ghost predicate Valid()
      reads this
    {
      UniqueIds(users) && UniqueEmails(users)
    }

    constructor ()
      ensures Valid() && users == []
    {
      users := [];
    }
  }
}
