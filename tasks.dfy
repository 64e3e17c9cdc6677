/** The task API (app/api/tasks/route.js): every read and write is scoped to
    the signed-in user recovered from the session token. */
module TasksRoute {
  import opened Base
  import opened Http
  import opened Session

  /** A stored task: its id, its owner's id, the title exactly as the client
      sent it (the server does not check it) and its creation time. */
  datatype Task = Task(id: string, userId: string, title: Option<string>, createdAt: int)

  /** The JSON body of a create request; only `title` is read from it. */
  datatype TaskBody = TaskBody(title: Option<string>)

  /** Ordered by `createdAt`, newest first (`sort({ createdAt: -1 })`). */
  predicate NewestFirst(s: seq<Task>) {
    forall i, j :: 0 <= i < j < |s| ==> s[i].createdAt >= s[j].createdAt
  }

  ghost predicate UniqueIds(tasks: seq<Task>) {
    forall i, j :: 0 <= i < j < |tasks| ==> tasks[i].id != tasks[j].id
  }

  /** The filter `{ userId }`: the tasks of one owner, in store order, each
      as often as it is stored, and no task of anyone else. */
  function OwnedBy(tasks: seq<Task>, uid: string): (r: seq<Task>)
    ensures |r| <= |tasks|
    ensures forall t {:trigger multiset(r)[t]} :: multiset(r)[t] == if t.userId == uid then multiset(tasks)[t] else 0
  {
    if |tasks| == 0 then []
    else
      assert tasks == [tasks[0]] + tasks[1..];
      (if tasks[0].userId == uid then [tasks[0]] else []) + OwnedBy(tasks[1..], uid)
  }

  /** The filter distributes over concatenation. */
  lemma {:induction false} OwnedByAppend(a: seq<Task>, b: seq<Task>, uid: string)
    ensures OwnedBy(a + b, uid) == OwnedBy(a, uid) + OwnedBy(b, uid)
  {
    if |a| == 0 {
      assert a + b == b;
    } else {
      var head := if a[0].userId == uid then [a[0]] else [];
      assert (a + b)[0] == a[0];
      assert (a + b)[1..] == a[1..] + b;
      OwnedByAppend(a[1..], b, uid);
      calc {
        OwnedBy(a + b, uid);
        head + OwnedBy(a[1..] + b, uid);
        head + (OwnedBy(a[1..], uid) + OwnedBy(b, uid));
        (head + OwnedBy(a[1..], uid)) + OwnedBy(b, uid);
        OwnedBy(a, uid) + OwnedBy(b, uid);
      }
    }
  }

  /** Puts `t` into a newest-first sequence, after every strictly newer task. */
  function InsertNewestFirst(t: Task, s: seq<Task>): (r: seq<Task>)
    requires NewestFirst(s)
    ensures NewestFirst(r)
    ensures multiset(r) == multiset(s) + multiset{t}
    ensures |r| == |s| + 1 && (r[0] == t || (|s| > 0 && r[0] == s[0]))
  {
    if |s| == 0 then [t]
    else if t.createdAt >= s[0].createdAt then [t] + s
    else
      var rest := InsertNewestFirst(t, s[1..]);
      assert s == [s[0]] + s[1..];
      assert rest[0].createdAt <= s[0].createdAt;
      [s[0]] + rest
  }

  /** A newest-first arrangement of `s`: sorted and a permutation of it. */
  function SortNewestFirst(s: seq<Task>): (r: seq<Task>)
    ensures NewestFirst(r)
    ensures multiset(r) == multiset(s)
  {
    if |s| == 0 then []
    else
      assert s == [s[0]] + s[1..];
      InsertNewestFirst(s[0], SortNewestFirst(s[1..]))
  }

  /** `Task.find({ userId }).sort({ createdAt: -1 })`: exactly the caller's
      tasks, each as often as it is stored, newest first. */
  function ListTasks(tasks: seq<Task>, uid: string): (r: seq<Task>)
    ensures NewestFirst(r)
    ensures forall t :: multiset(r)[t] == if t.userId == uid then multiset(tasks)[t] else 0
    ensures forall t :: t in r <==> t in tasks && t.userId == uid
  {
    SortNewestFirst(OwnedBy(tasks, uid))
  }

  /** The `GET` handler: 401 without a signed-in user, otherwise the caller's
      tasks newest first; a database failure escapes the handler. */
  function Get(tasks: seq<Task>, cookies: Cookies, env: Env, jose: Jose): (r: Reply<seq<Task>>)
    ensures SignedInUser(cookies, env, jose).None? ==> r == Unauthorized()
    ensures SignedInUser(cookies, env, jose).Some? && env.dbFails ==> r == Crashed()
    ensures r.status == 200 <==> SignedInUser(cookies, env, jose).Some? && !env.dbFails
    ensures r.status == 200 ==>
              && r.body.Json? && r.setCookie.None?
              && NewestFirst(r.body.value)
              && (forall t :: t in r.body.value <==> t in tasks && t.userId == SignedInUser(cookies, env, jose).value)
              && multiset(r.body.value) == multiset(OwnedBy(tasks, SignedInUser(cookies, env, jose).value))
  {
    match SignedInUser(cookies, env, jose)
    case None => Unauthorized()
    case Some(uid) =>
      if env.dbFails then Crashed()
      else Reply(200, Json(ListTasks(tasks, uid)), None)
  }

  /** The filter `{ _id: id, userId }` of the delete; a missing `id` query
      parameter matches nothing. */
  predicate DeleteMatches(t: Task, id: Option<string>, uid: string) {
    id == Some(t.id) && t.userId == uid
  }

  /** Position of the task `findOneAndDelete({ _id: id, userId })` picks, or `|tasks|`. */
  function DeleteIndex(tasks: seq<Task>, id: Option<string>, uid: string): (k: nat)
    ensures k <= |tasks|
    ensures k < |tasks| ==> DeleteMatches(tasks[k], id, uid)
    ensures forall j :: 0 <= j < k ==> !DeleteMatches(tasks[j], id, uid)
  {
    FirstIndex(tasks, (t: Task) => DeleteMatches(t, id, uid))
  }

  /** `findOneAndDelete({ _id: id, userId })`: drops the first task whose id
      is `id` and whose owner is `uid`, if there is one, and nothing else. */
  function RemoveOwned(tasks: seq<Task>, id: Option<string>, uid: string): (r: seq<Task>)
    ensures |r| == |tasks| || |r| == |tasks| - 1
    ensures |r| == |tasks| - 1 <==> exists i :: 0 <= i < |tasks| && DeleteMatches(tasks[i], id, uid)
    ensures forall t :: !DeleteMatches(t, id, uid) ==> multiset(r)[t] == multiset(tasks)[t]
    ensures multiset(r) <= multiset(tasks)
  {
    var k := DeleteIndex(tasks, id, uid);
    if k < |tasks| then
      assert tasks == tasks[..k] + [tasks[k]] + tasks[k + 1..];
      RemoveAt(tasks, k)
    else
      RemoveAt(tasks, k)
  }

  /** Taking out a task of someone else leaves a user's tasks, in store order, as they were. */
  lemma OwnedByRemoveAt(tasks: seq<Task>, k: nat, owner: string)
    requires k < |tasks| && tasks[k].userId != owner
    ensures OwnedBy(RemoveAt(tasks, k), owner) == OwnedBy(tasks, owner)
  {
    var a, b := tasks[..k], tasks[k + 1..];
    assert tasks == a + ([tasks[k]] + b);
    OwnedByAppend(a, [tasks[k]] + b, owner);
    OwnedByAppend([tasks[k]], b, owner);
    OwnedByAppend(a, b, owner);
    assert OwnedBy([tasks[k]], owner) == [];
  }

  /** Another user's delete leaves a user's tasks, in store order, as they were. */
  lemma OtherUsersDeleteKeepsOwned(tasks: seq<Task>, id: Option<string>, caller: string, owner: string)
    requires caller != owner
    ensures OwnedBy(RemoveOwned(tasks, id, caller), owner) == OwnedBy(tasks, owner)
  {
    var k := DeleteIndex(tasks, id, caller);
    if k < |tasks| {
      OwnedByRemoveAt(tasks, k, owner);
    }
  }

  /** Another user's delete, whatever id it names, leaves a user's task list as it was. */
  lemma OtherUsersDeleteKeepsList(tasks: seq<Task>, id: Option<string>, caller: string, owner: string)
    requires caller != owner
    ensures ListTasks(RemoveOwned(tasks, id, caller), owner) == ListTasks(tasks, owner)
  {
    OtherUsersDeleteKeepsOwned(tasks, id, caller, owner);
  }

  /** Another user's create leaves a user's task list as it was. */
  lemma OtherUsersCreateKeepsList(tasks: seq<Task>, t: Task, owner: string)
    requires t.userId != owner
    ensures ListTasks(tasks + [t], owner) == ListTasks(tasks, owner)
  {
    OwnedByAppend(tasks, [t], owner);
    assert OwnedBy([t], owner) == [];
    assert OwnedBy(tasks, owner) + [] == OwnedBy(tasks, owner);
  }

  /** The tasks collection, in insertion order. */
  class TaskStore {
    var tasks: seq<Task>

    ghost predicate Valid()
      reads this
    {
      UniqueIds(tasks)
    }

    constructor ()
      ensures Valid() && tasks == []
    {
      tasks := [];
    }

    /** The `POST` handler: 401 without a signed-in user; otherwise
        `Task.create({ userId, title })` with the verified id as owner and the
        body's `title` as sent, answering 201 with the new task. An unreadable
        body, a database failure or an id already taken escapes the handler. */
    method Post(cookies: Cookies, body: Option<TaskBody>, env: Env, jose: Jose, newId: string)
      returns (r: Reply<Task>)
      requires Valid()
      modifies this
      ensures Valid()
      ensures SignedInUser(cookies, env, jose).None? ==> r == Unauthorized() && tasks == old(tasks)
      ensures r.status == 201 <==>
                && SignedInUser(cookies, env, jose).Some? && body.Some? && !env.dbFails
                && (forall i :: 0 <= i < |old(tasks)| ==> old(tasks)[i].id != newId)
      ensures r.status == 201 ==>
                && r.body == Json(Task(newId, SignedInUser(cookies, env, jose).value, body.value.title, env.now))
                && r.setCookie.None?
                && tasks == old(tasks) + [r.body.value]
      ensures r.status != 201 ==> tasks == old(tasks)
      ensures SignedInUser(cookies, env, jose).Some? && r.status != 201 ==> r == Crashed()
    {
      var uid := SignedInUser(cookies, env, jose);
      if uid.None? {
        return Unauthorized();
      }
      if body.None? || env.dbFails {
        return Crashed();
      }
      var taken := exists i :: 0 <= i < |tasks| && tasks[i].id == newId;
      if taken {
        return Crashed();
      }
      var task := Task(newId, uid.value, body.value.title, env.now);
      tasks := tasks + [task];
      r := Reply(201, Json(task), None);
    }

    /** The `DELETE` handler: 401 without a signed-in user; otherwise deletes
        the caller's task with the `id` query parameter, if any, and answers
        `{ message: "Deleted" }` whether or not one matched. */
    method Delete(cookies: Cookies, id: Option<string>, env: Env, jose: Jose) returns (r: Reply<()>)
      requires Valid()
      modifies this
      ensures Valid()
      ensures SignedInUser(cookies, env, jose).None? ==> r == Unauthorized() && tasks == old(tasks)
      ensures SignedInUser(cookies, env, jose).Some? && env.dbFails ==> r == Crashed() && tasks == old(tasks)
      ensures SignedInUser(cookies, env, jose).Some? && !env.dbFails ==>
                && r == Reply(200, Message("Deleted"), None)
                && tasks == RemoveOwned(old(tasks), id, SignedInUser(cookies, env, jose).value)
    {
      var uid := SignedInUser(cookies, env, jose);
      if uid.None? {
        return Unauthorized();
      }
      if env.dbFails {
        return Crashed();
      }
      ghost var before := tasks;
      tasks := RemoveOwned(tasks, id, uid.value);
      RemoveOwnedKeepsIds(before, id, uid.value);
      r := Reply(200, Message("Deleted"), None);
    }
  }

  /** With unique ids, the owner's delete of one of their tasks removes exactly that task. */
  lemma OwnerDeleteRemoves(tasks: seq<Task>, k: nat)
    requires UniqueIds(tasks) && k < |tasks|
    ensures RemoveOwned(tasks, Some(tasks[k].id), tasks[k].userId) == tasks[..k] + tasks[k + 1..]
  {
  }

  /** Deleting keeps task ids unique. */
  lemma RemoveOwnedKeepsIds(tasks: seq<Task>, id: Option<string>, uid: string)
    requires UniqueIds(tasks)
    ensures UniqueIds(RemoveOwned(tasks, id, uid))
  {
  }
}
