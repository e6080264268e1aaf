/**
 * routes/users.ts: registration without a role (the column default USER),
 * and a login that returns a one-hour token without a role as JSON
 * `{ token }`. The list, update and delete routes are in `Profiles`.
 */
module RootUsers {
  import opened Wrappers
  import opened Bcrypt
  import opened Schema
  import opened Jwt
  import opened Http
  import opened Db
  import opened Profiles

  /** The claims this login signs: `{ id, username }`, no role. */
  function TokenClaims(u: User): Claims {
    Claims(u.id, u.username, None)
  }

  /** POST /register: a new USER, or 500 when the username is taken. */
  method Register(db: Store, username: string, password: string) returns (resp: Response)
    requires db.Valid()
    modifies db
    ensures db.Valid()
    ensures NameTaken(old(db.users), username) ==>
              resp == Reply(500, ErrorJson("Registration failed")) && db.Snapshot() == old(db.Snapshot())
    ensures !NameTaken(old(db.users), username) ==>
              var u := User(old(db.nextUserId), username, Hash(password), USER);
              && resp == Reply(201, UserJson(UserView(u.id, username)))
              && db.Snapshot() == old(db.Snapshot()).(users := old(db.users)[u.id := u], nextUserId := u.id + 1)
  {
    var hashedPassword := Hash(password);
    var user := db.CreateUser(username, hashedPassword, USER);
    if user.None? {
      return Reply(500, ErrorJson("Registration failed"));
    }
    resp := Reply(201, UserJson(View(user.value)));
  }

  /**
   * POST /login: the same 401 for an unknown username and for a wrong
   * password; otherwise `{ id, username }` signed for one hour, in the body.
   */
  method Login(db: Store, username: string, password: string, secret: string, now: int) returns (resp: Response)
    requires db.Valid()
    ensures !CredentialsMatch(db.users, username, password) ==>
              resp == Reply(401, ErrorJson("Invalid credentials"))
    ensures forall u :: u in db.users.Values && u.username == username && Compare(password, u.password) ==>
              resp == Reply(200, TokenJson(Sign(TokenClaims(u), secret, now, OneHour)))
  {
    var user := CheckCredentials(db.users, db.nextUserId, username, password);
    if user.None? {
      return Reply(401, ErrorJson("Invalid credentials"));
    }
    var u := user.value;
    forall w | w in db.users.Values && w.username == username && Compare(password, w.password) ensures w == u {
      CheckCredentialsExactly(db.users, db.nextUserId, username, password, w);
    }
    var token := Sign(TokenClaims(u), secret, now, OneHour);
    resp := Reply(200, TokenJson(token));
  }
}
