/**
 * End-to-end runs of the routes over a fresh database, written as methods
 * whose assertions the verifier checks: a task's life cycle, another user's
 * update refused, the cookie that the server variant's middleware does not
 * read, an ADMIN delete, and a user who promotes themself to ADMIN.
 */
module Scenarios {
  import opened Wrappers
  import opened Bcrypt
  import opened Schema
  import opened Jwt
  import opened Http
  import opened Db
  import opened AuthMiddleware
  import Profiles
  import ServerUsers
  import ServerTasks
  import RootUsers
  import RootTasks
  import TaskRoutes

  /** A request with `Authorization: Bearer <token>` and no cookies. */
  function BearerRequest(token: string): Request {
    Request(map["authorization" := "Bearer " + token], map[])
  }

  /** alice registers and logs in, and gets a one-hour token naming her. */
  method RegisterAndLogin(secret: string, now: int) {
    var db := new Store();
    var registered := RootUsers.Register(db, "alice", "pw1");
    assert registered == Reply(201, UserJson(UserView(1, "alice")));
    var alice := User(1, "alice", Hash("pw1"), USER);
    assert db.users == map[1 := alice];
    assert db.users[1] == alice;
    assert alice in db.users.Values;

    var login := RootUsers.Login(db, "alice", "pw1", secret, now);
    var token := Sign(RootUsers.TokenClaims(alice), secret, now, OneHour);
    assert login == Reply(200, TokenJson(token));

  }

  /** A wrong password and an unknown name get the same answer. */
  method LoginRefused(secret: string, now: int) {
    var db := new Store();
    var _ := RootUsers.Register(db, "alice", "pw1");
    assert db.users == map[1 := User(1, "alice", Hash("pw1"), USER)];

    var wrongPassword := RootUsers.Login(db, "alice", "pw2", secret, now);
    var unknownUser := RootUsers.Login(db, "bob", "pw1", secret, now);
    assert wrongPassword == unknownUser == Reply(401, ErrorJson("Invalid credentials"));
  }

  /** alice's token, sent as a bearer header within the hour, makes her the caller, as a non-ADMIN. */
  method TokenIdentifiesCaller(secret: string, now: int) {
    var alice := User(1, "alice", Hash("pw1"), USER);
    var token := Sign(RootUsers.TokenClaims(alice), secret, now, OneHour);
    RootTasks.LoginTokenNeverAdmin(BearerRequest(token), "Bearer", alice, secret, now, now + OneHour - 1);
    var gate := AuthenticateToken(BearerRequest(token), secret, now + OneHour - 1);
    assert gate.Next? && gate.user.claims.id == 1 && !TaskRoutes.IsAdmin(gate.user.claims);
  }

  /** alice creates a task, sees it, deletes it, and then sees nothing. */
  method TaskLifecycle() {
    var db := new Store();
    var _ := RootUsers.Register(db, "alice", "pw1");
    var caller := Claims(1, "alice", None);

    var created := TaskRoutes.CreateTask(db, caller, "t1", None, "pending");
    var t1 := Task(1, "t1", None, "pending", 1);
    assert created == Reply(201, TaskJson(t1));
    assert db.tasks == map[1 := t1];

    var mine := TaskRoutes.MyTasks(db, caller);
    assert forall t :: t in mine.body.tasks <==> t == t1 by {
      assert forall t :: t in db.tasks.Values <==> t == t1 by {
        assert db.tasks[1] == t1;
      }
    }

    var deleted := RootTasks.DeleteTask(db, caller, 1);
    assert deleted == Reply(200, MessageJson("Task deleted successfully"));
    assert db.tasks == map[];

    var after := TaskRoutes.MyTasks(db, caller);
    assert db.tasks.Values == {};
    assert forall t :: t !in after.body.tasks;
  }

  /** bob's update of alice's task is a 404 and the task is left as it was. */
  method ForeignUpdate() {
    var db := new Store();
    var _ := RootUsers.Register(db, "alice", "pw1");
    var _ := RootUsers.Register(db, "bob", "pw2");
    var alice := Claims(1, "alice", None);
    var bob := Claims(2, "bob", None);

    var created := TaskRoutes.CreateTask(db, alice, "X", Some("mine"), "pending");
    var x := Task(1, "X", Some("mine"), "pending", 1);
    assert created == Reply(201, TaskJson(x));

    var refused := TaskRoutes.UpdateTask(db, bob, 1, Some("hijacked"), None, Some("done"));
    assert refused == Reply(404, ErrorJson("Task not found"));
    assert db.tasks == map[1 := x];

    var refusedDelete := RootTasks.DeleteTask(db, bob, 1);
    assert refusedDelete.status == 404;
    assert db.tasks == map[1 := x];
  }

  /** alice's update that sends only a status keeps the title and the description. */
  method PartialUpdate() {
    var db := new Store();
    var alice := Claims(1, "alice", None);
    var _ := TaskRoutes.CreateTask(db, alice, "X", Some("mine"), "pending");

    var updated := TaskRoutes.UpdateTask(db, alice, 1, None, None, Some("done"));
    assert updated == Reply(200, TaskJson(Task(1, "X", Some("mine"), "done", 1)));
  }

  /** The server variant's login answers with a message and sets the token in the `accessToken` cookie. */
  method ServerLoginSetsCookie(secret: string, now: int) {
    var db := new Store();
    var _ := ServerUsers.Register(db, "root", "pw", Some("ADMIN"));
    var admin := User(1, "root", Hash("pw"), ADMIN);
    assert db.users == map[1 := admin];
    assert db.users[1] == admin;
    assert admin in db.users.Values;

    var login := ServerUsers.Login(db, "root", "pw", secret, now, true);
    var token := Sign(ServerUsers.LoginClaims(admin), secret, now, OneDay);
    assert login.body == MessageJson("Login successful");
    assert login.cookie == Some(ServerUsers.AccessCookie(token, true));
  }

  /**
   * Its middleware reads only the Authorization header: a browser that
   * relies on the cookie is turned away with 401, while the same token as a
   * bearer header passes, carrying the ADMIN role.
   */
  method CookieNotRead(secret: string, now: int) {
    var admin := User(1, "root", Hash("pw"), ADMIN);
    var token := Sign(ServerUsers.LoginClaims(admin), secret, now, OneDay);

    var cookieOnly := Request(map[], map["accessToken" := token]);
    CookieOnlyIsMissing(cookieOnly, secret, now);
    assert AuthenticateToken(cookieOnly, secret, now).response.status == 401;

    SignedTokenPasses(BearerRequest(token), "Bearer", ServerUsers.LoginClaims(admin), secret, now, OneDay, now);
    var gate := AuthenticateToken(BearerRequest(token), secret, now);
    assert gate.Next? && gate.user.claims.role == Some(ADMIN);
  }

  /** An ADMIN token deletes a task another user owns; a USER token may not even delete its own. */
  method AdminDeletesAnyTask() {
    var db := new Store();
    var owner := Claims(7, "someone", Some(USER));
    var _ := TaskRoutes.CreateTask(db, owner, "theirs", None, "open");

    var refused := ServerTasks.DeleteTask(db, owner, 1);
    assert refused.status == 403;
    assert 1 in db.tasks;

    var removed := ServerTasks.DeleteTask(db, Claims(1, "root", Some(ADMIN)), 1);
    assert removed == Reply(200, MessageJson("Task deleted successfully"));
    assert db.tasks == map[];
  }

  /**
   * A USER sets their own role to ADMIN through the profile update, and the
   * user delete, which reads the role from the database, then lets them
   * delete someone else.
   */
  method SelfPromotion() {
    var db := new Store();
    var _ := RootUsers.Register(db, "alice", "pw1");
    var _ := RootUsers.Register(db, "mallory", "pw2");
    var mallory := Claims(2, "mallory", None);

    var refused := Profiles.DeleteUser(db, mallory, 1);
    assert refused.status == 403;

    var promoted := Profiles.UpdateUser(db, mallory, 2, None, None, Some("ADMIN"));
    assert promoted == Reply(200, UserRoleJson(2, "mallory", ADMIN));

    var removed := Profiles.DeleteUser(db, mallory, 1);
    assert removed == Reply(200, MessageJson("User deleted successfully"));
    assert 1 !in db.users;
  }
}
