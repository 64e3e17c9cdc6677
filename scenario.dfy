/** A complete session against fresh stores: register, log in, create a
    task, list, delete it, list again. Only the library assumptions about
    jose and bcrypt are taken as hypotheses. */
module Scenario {
  import opened Base
  import opened Http
  import opened Session
  import opened Users
  import opened RegisterRoute
  import opened LoginRoute
  import opened TasksRoute

  method EndToEnd(env: Env, bcrypt: Bcrypt, jose: Jose, userId: string, taskId: string)
    returns (listed: seq<Task>, afterDelete: seq<Task>)
    requires RoundTrips(jose) && SignsNonEmpty(jose) && MatchesOwnHash(bcrypt)
    requires !env.dbFails && userId != ""
    ensures listed == [Task(taskId, userId, Some("Buy milk"), env.now)]
    ensures afterDelete == []
  {
    var users := new UserStore();
    var reg := RegisterBody(Some("Alice"), Some("alice@x.com"), Some("secret1"));
    var registered := Register(users, Some(reg), env, bcrypt, userId);
    assert registered.status == 201;
    var credentials := LoginBody(reg.email, reg.password);
    RegisteredUserCanLogIn([], reg, userId, env, bcrypt, jose);
    var login := Login(users.users, Some(credentials), env, bcrypt, jose);
    LoginSignsIn(users.users, credentials, env, bcrypt, jose, env);
    var cookies := TokenCookies(login.setCookie.value.value);
    assert SignedInUser(cookies, env, jose) == Some(userId);

    var tasks := new TaskStore();
    var created := tasks.Post(cookies, Some(TaskBody(Some("Buy milk"))), env, jose, taskId);
    var t := Task(taskId, userId, Some("Buy milk"), env.now);
    assert tasks.tasks == [t];
    var first := Get(tasks.tasks, cookies, env, jose);
    listed := first.body.value;
    assert multiset(listed)[t] == 1;
    assert |listed| == 1;

    var deleted := tasks.Delete(cookies, Some(taskId), env, jose);
    OwnerDeleteRemoves([t], 0);
    var second := Get(tasks.tasks, cookies, env, jose);
    afterDelete := second.body.value;
  }
}
