/**
 * server/routes/users.ts: registration with a role taken from the body,
 * login delivering a one-day token in the `accessToken` cookie, and logout.
 * The list, update and delete routes are in `Profiles`.
 */
module ServerUsers {
  import opened Wrappers
  import opened Bcrypt
  import opened Schema
  import opened Jwt
  import opened Http
  import opened Db
  import opened Profiles

  /** The cookie a successful login sets; `production` is `env_type === 'production'`. */
  function AccessCookie(token: string, production: bool): Cookie {
    Cookie("accessToken", token, true, production, "lax")
  }

  /** The claims a login signs: `{ id, username, role }`. */
  function LoginClaims(u: User): Claims {
    Claims(u.id, u.username, Some(u.role))
  }

  /** POST /register. */
  method Register(db: Store, username: string, password: string, role: Option<string>) returns (resp: Response)
    requires db.Valid()
    modifies db
    ensures db.Valid()
    ensures (RoleFromBody(role).None? || NameTaken(old(db.users), username)) ==>
              resp == Reply(500, ErrorJson("Registration failed")) && db.Snapshot() == old(db.Snapshot())
    ensures (RoleFromBody(role).Some? && !NameTaken(old(db.users), username)) ==>
              var u := User(old(db.nextUserId), username, Hash(password), RoleFromBody(role).value);
              && resp == Reply(201, UserJson(UserView(u.id, username)))
              && db.Snapshot() == old(db.Snapshot()).(users := old(db.users)[u.id := u], nextUserId := u.id + 1)
  {
    var hashedPassword := Hash(password);
    var storedRole := RoleFromBody(role);
    if storedRole.None? {
      return Reply(500, ErrorJson("Registration failed"));
    }
    var user := db.CreateUser(username, hashedPassword, storedRole.value);
    if user.None? {
      return Reply(500, ErrorJson("Registration failed"));
    }
    resp := Reply(201, UserJson(View(user.value)));
  }

  /**
   * POST /login: the same 401 for an unknown username and for a wrong
   * password; otherwise `{ id, username, role }` signed for one day, in the
   * `accessToken` cookie.
   */
  method Login(db: Store, username: string, password: string, secret: string, now: int, production: bool)
    returns (resp: Response)
    requires db.Valid()
    ensures !CredentialsMatch(db.users, username, password) ==>
              resp == Reply(401, ErrorJson("Invalid credentials"))
    ensures forall u :: u in db.users.Values && u.username == username && Compare(password, u.password) ==>
              resp == Response(200, MessageJson("Login successful"),
                               Some(AccessCookie(Sign(LoginClaims(u), secret, now, OneDay), production)))
  {
    var user := CheckCredentials(db.users, db.nextUserId, username, password);
    if user.None? {
      return Reply(401, ErrorJson("Invalid credentials"));
    }
    var u := user.value;
    forall w | w in db.users.Values && w.username == username && Compare(password, w.password) ensures w == u {
      CheckCredentialsExactly(db.users, db.nextUserId, username, password, w);
    }
    var token := Sign(LoginClaims(u), secret, now, OneDay);
    resp := Response(200, MessageJson("Login successful"), Some(AccessCookie(token, production)));
  }

  /** POST /logout: always 200 (clearing the cookie is not modelled). */
  function Logout(): (resp: Response)
    ensures resp.status == 200 && resp.body == MessageJson("Logged out successfully")
  {
    Reply(200, MessageJson("Logged out successfully"))
  }
}
