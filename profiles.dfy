/**
 * The user routes that server/routes/users.ts and routes/users.ts implement
 * with the same code: the credential check of a login, the user list, the
 * profile update and the profile delete. `caller` is the decoded token;
 * `caller.id` is `req.userId`.
 */
module Profiles {
  import opened Wrappers
  import opened Bcrypt
  import opened Schema
  import opened Jwt
  import opened Http
  import opened Db

  const NotYourProfileUpdate := "Unauthorized: You can only update your own profile."
  const NotYourProfileDelete := "Unauthorized: You can only delete your own profile."

  /**
   * The two checks of every login: the row with that username, then the
   * password against its digest. Both failures look the same to the caller.
   */
  function CheckCredentials(users: map<int, User>, next: int, username: string, password: string): (found: Option<User>)
    requires UsersKeyed(users, next) && UniqueUsernames(users)
    ensures found.Some? ==> found.value in users.Values && found.value.username == username && Compare(password, found.value.password)
    ensures found.None? <==> !CredentialsMatch(users, username, password)
  {
    match FindByUsername(users, next, username)
    case None => None
    case Some(u) =>
      if Compare(password, u.password) then Some(u)
      else
        assert !CredentialsMatch(users, username, password) by {
          forall w | w in users.Values && w.username == username ensures !Compare(password, w.password) {
            FindByUsernameExactly(users, next, username, w);
          }
        }
        None
  }

  /** With unique usernames, the user a login finds is the only one with that name and password. */
  lemma CheckCredentialsExactly(users: map<int, User>, next: int, username: string, password: string, u: User)
    requires UsersKeyed(users, next) && UniqueUsernames(users)
    requires u in users.Values && u.username == username && Compare(password, u.password)
    ensures CheckCredentials(users, next, username, password) == Some(u)
  {
    FindByUsernameExactly(users, next, username, u);
  }

  /** GET /users: every user, as `{ id, username }`, to any authenticated caller. */
  method ListUsers(db: Store, caller: Claims) returns (resp: Response)
    requires db.Valid()
    ensures resp.status == 200 && resp.body.UserList?
    ensures forall u :: u in db.users.Values ==> View(u) in resp.body.users
    ensures forall v :: v in resp.body.users ==> v.id in db.users && View(db.users[v.id]) == v
    ensures forall i, j :: 0 <= i < j < |resp.body.users| ==> resp.body.users[i].id < resp.body.users[j].id
  {
    var users := AllUsers(db.users, db.nextUserId);
    var views := Views(users);
    forall u | u in db.users.Values ensures View(u) in views {
      var i :| 0 <= i < |users| && users[i] == u;
      assert views[i] == View(u);
    }
    resp := Reply(200, UserList(views));
  }

  /**
   * PUT /:id: only the caller's own profile. A truthy password is re-hashed;
   * an absent field keeps its column.
   */
  method UpdateUser(db: Store, caller: Claims, id: int, username: Option<string>, password: Option<string>, role: Option<string>)
    returns (resp: Response)
    requires db.Valid()
    modifies db
    ensures db.Valid()
    ensures caller.id != id ==>
              resp == Reply(403, ErrorJson(NotYourProfileUpdate)) && db.Snapshot() == old(db.Snapshot())
    ensures caller.id == id ==>
              var edit := UserEdit(username, if Truthy(password) then Some(Hash(password.value)) else None, RoleEdit(role));
              if !ValidRoleValue(role) || id !in old(db.users)
                 || (username.Some? && NameTakenByOther(old(db.users), username.value, id))
              then resp == Reply(500, ErrorJson("Failed to update user")) && db.Snapshot() == old(db.Snapshot())
              else
                var u := ApplyUserEdit(old(db.users)[id], edit);
                && resp == Reply(200, UserRoleJson(id, u.username, u.role))
                && db.Snapshot() == old(db.Snapshot()).(users := old(db.users)[id := u])
  {
    if caller.id != id {
      return Reply(403, ErrorJson(NotYourProfileUpdate));
    }
    var hashedPassword: Option<Digest> := None;
    if Truthy(password) {
      hashedPassword := Some(Hash(password.value));
    }
    if !ValidRoleValue(role) {
      return Reply(500, ErrorJson("Failed to update user"));
    }
    var updated := db.UpdateUser(id, UserEdit(username, hashedPassword, RoleEdit(role)));
    if updated.None? {
      return Reply(500, ErrorJson("Failed to update user"));
    }
    var u := updated.value;
    resp := Reply(200, UserRoleJson(u.id, u.username, u.role));
  }

  /**
   * DELETE /:id: allowed on the caller's own profile, or on any profile when
   * the caller's row (not the token) says ADMIN.
   */
  method DeleteUser(db: Store, caller: Claims, id: int) returns (resp: Response)
    requires db.Valid()
    modifies db
    ensures db.Valid()
    ensures !(caller.id == id || (caller.id in old(db.users) && old(db.users)[caller.id].role == ADMIN)) ==>
              resp == Reply(403, ErrorJson(NotYourProfileDelete)) && db.Snapshot() == old(db.Snapshot())
    ensures (caller.id == id || (caller.id in old(db.users) && old(db.users)[caller.id].role == ADMIN)) ==>
              if id in old(db.users) then
                && resp == Reply(200, MessageJson("User deleted successfully"))
                && db.Snapshot() == old(db.Snapshot()).(users := old(db.users) - {id})
              else resp == Reply(500, ErrorJson("Failed to delete user")) && db.Snapshot() == old(db.Snapshot())
  {
    var currentUser := FindUser(db.users, caller.id);
    if caller.id != id && !(currentUser.Some? && currentUser.value.role == ADMIN) {
      return Reply(403, ErrorJson(NotYourProfileDelete));
    }
    var deleted := db.DeleteUser(id);
    if !deleted {
      return Reply(500, ErrorJson("Failed to delete user"));
    }
    resp := Reply(200, MessageJson("User deleted successfully"));
  }

}
