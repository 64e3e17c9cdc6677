/** The profile API (app/api/auth/me/route.js): a signed-in user reads and
    edits their own record, and only its `name` and `gender`. */
module MeRoute {
  import opened Base
  import opened Http
  import opened Session
  import opened Users

  /** The JSON body of an update request. `email` stands for any extra field
      a client may send; the handler never reads it. */
  datatype ProfileBody = ProfileBody(name: Option<string>, gender: Option<string>, email: Option<string>)

  const ValidGenders: seq<string> := ["male", "female", "other", "prefer_not_to_say"]

  const NameError := "Name must be at least 2 chars"
  const GenderError := "Invalid gender selection"

  /** The `GET` handler: 401 without a signed-in user, 404 when no stored
      user has the token's id, otherwise that user without the password. */
  function GetMe(users: seq<User>, cookies: Cookies, env: Env, jose: Jose): (r: Reply<PublicUser>)
    ensures SignedInUser(cookies, env, jose).None? ==> r == Unauthorized()
    ensures SignedInUser(cookies, env, jose).Some? && env.dbFails ==> r == Crashed()
    ensures (&& SignedInUser(cookies, env, jose).Some? && !env.dbFails
             && forall i :: 0 <= i < |users| ==> users[i].id != SignedInUser(cookies, env, jose).value)
              ==> r == Reply(404, Error("User not found"), None)
    ensures r.status == 200 ==>
              && SignedInUser(cookies, env, jose).Some? && r.setCookie.None?
              && var k := IndexOfId(users, SignedInUser(cookies, env, jose).value);
                 k < |users| && users[k].id == SignedInUser(cookies, env, jose).value
                 && r.body == Json(PublicUser(users[k].id, users[k].name, users[k].email, users[k].gender))
    ensures r.status == 200 <==>
              && SignedInUser(cookies, env, jose).Some? && !env.dbFails
              && IndexOfId(users, SignedInUser(cookies, env, jose).value) < |users|
    ensures r.status in {200, 401, 404, 500}
  {
    match SignedInUser(cookies, env, jose)
    case None => Unauthorized()
    case Some(uid) =>
      if env.dbFails then Crashed()
      else
        var k := IndexOfId(users, uid);
        if k == |users| then Reply(404, Error("User not found"), None)
        else Reply(200, Json(Public(users[k])), None)
  }

  /** The handler's `!name || name.length < 2` test; the empty name that
      `!name` refuses is also shorter than 2. */
  predicate NameRejected(name: Option<string>) {
    name.None? || |name.value| < 2
  }

  /** The handler's `gender && !validGenders.includes(gender)` test: an absent
      or empty gender is not checked. */
  predicate GenderRejected(gender: Option<string>) {
    gender.Some? && gender.value != "" && gender.value !in ValidGenders
  }

  /** The validation step of `PUT`: the name is checked first, then the gender. */
  function ProfileError(body: ProfileBody): (e: Option<string>)
    ensures e.None? <==>
              && body.name.Some? && |body.name.value| >= 2
              && (body.gender.Some? && body.gender.value != "" ==> body.gender.value in ValidGenders)
    ensures e.Some? ==> e.value in {NameError, GenderError}
    ensures e == Some(GenderError) ==> body.name.Some? && |body.name.value| >= 2
    ensures body.name.None? || |body.name.value| < 2 ==> e == Some(NameError)
  {
    if NameRejected(body.name) then Some(NameError)
    else if GenderRejected(body.gender) then Some(GenderError)
    else None
  }

  /** The update `{ name, gender }`: the name is replaced and so is the gender
      when one was sent; id, email and password are never touched. */
  function ApplyProfile(u: User, name: string, gender: Option<string>): (v: User)
    ensures v.id == u.id && v.email == u.email && v.password == u.password
    ensures v.name == name
    ensures gender.Some? ==> v.gender == gender
    ensures gender.None? ==> v.gender == u.gender
  {
    u.(name := name, gender := if gender.Some? then gender else u.gender)
  }

  /** The `PUT` handler. Without a signed-in user: 401. An unreadable body or a
      database failure: 500 "Update failed". A bad name or gender: 400 with
      its message. Otherwise `findByIdAndUpdate(userId, { name, gender })`:
      200 with the updated user without the password, or `null` when no
      stored user has that id. Only the caller's record changes, and only its
      name and gender; the store is untouched on every other path. */
  method Put(store: UserStore, cookies: Cookies, body: Option<ProfileBody>, env: Env, jose: Jose)
    returns (r: Reply<Option<PublicUser>>)
    requires store.Valid()
    modifies store
    ensures store.Valid()
    ensures SignedInUser(cookies, env, jose).None? ==> r == Unauthorized()
    ensures SignedInUser(cookies, env, jose).Some? && body.None? ==> r == Reply(500, Error("Update failed"), None)
    ensures (SignedInUser(cookies, env, jose).Some? && body.Some? && ProfileError(body.value).Some?)
              ==> r == Reply(400, Error(ProfileError(body.value).value), None)
    ensures (SignedInUser(cookies, env, jose).Some? && body.Some? && ProfileError(body.value).None? && env.dbFails)
              ==> r == Reply(500, Error("Update failed"), None)
    ensures r.status != 200 ==> store.users == old(store.users)
    ensures r.status == 200 <==>
              SignedInUser(cookies, env, jose).Some? && body.Some? && ProfileError(body.value).None? && !env.dbFails
    ensures r.status == 200 ==>
              var k := IndexOfId(old(store.users), SignedInUser(cookies, env, jose).value);
              && r.setCookie.None?
              && (k == |old(store.users)| ==> r.body == Json(None) && store.users == old(store.users))
              && (k < |old(store.users)| ==>
                    && store.users == old(store.users)[k := ApplyProfile(old(store.users)[k], body.value.name.value, body.value.gender)]
                    && r.body == Json(Some(Public(store.users[k]))))
    ensures |store.users| == |old(store.users)|
    ensures forall i :: 0 <= i < |store.users| ==>
              && store.users[i].id == old(store.users)[i].id
              && store.users[i].email == old(store.users)[i].email
              && store.users[i].password == old(store.users)[i].password
    ensures forall i :: 0 <= i < |store.users| && Some(old(store.users)[i].id) != SignedInUser(cookies, env, jose)
              ==> store.users[i] == old(store.users)[i]
  {
    var uid := SignedInUser(cookies, env, jose);
    if uid.None? {
      return Unauthorized();
    }
    if body.None? {
      return Reply(500, Error("Update failed"), None);
    }
    var err := ProfileError(body.value);
    if err.Some? {
      return Reply(400, Error(err.value), None);
    }
    if env.dbFails {
      return Reply(500, Error("Update failed"), None);
    }
    var k := IndexOfId(store.users, uid.value);
    if k == |store.users| {
      return Reply(200, Json(None), None);
    }
    var updated := ApplyProfile(store.users[k], body.value.name.value, body.value.gender);
    store.users := store.users[k := updated];
    r := Reply(200, Json(Some(Public(updated))), None);
  }

  /** The allow-list: two update bodies that agree on `name` and `gender`
      produce the same record, whatever `email` either carries. */
  lemma UpdateIgnoresEmail(u: User, b1: ProfileBody, b2: ProfileBody)
    requires b1.name == b2.name && b1.gender == b2.gender
    requires b1.name.Some?
    ensures ProfileError(b1) == ProfileError(b2)
    ensures ApplyProfile(u, b1.name.value, b1.gender) == ApplyProfile(u, b2.name.value, b2.gender)
  {
  }
}
