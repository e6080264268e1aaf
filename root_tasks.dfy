/**
 * The task delete of routes/tasks.ts: `deleteMany` filtered on the id and
 * the caller, so a user deletes only their own tasks and the role plays no
 * part. The other task routes are in `TaskRoutes`.
 */
module RootTasks {
  import opened Schema
  import opened Jwt
  import opened Http
  import opened Db
  import opened TaskRoutes
  import AuthMiddleware
  import RootUsers

  /** DELETE /:id: 404 for a missing task and for another user's task alike. */
  method DeleteTask(db: Store, caller: Claims, id: int) returns (resp: Response)
    requires db.Valid()
    modifies db
    ensures db.Valid()
    ensures !OwnedTask(old(db.tasks), id, caller.id) ==>
              resp == Reply(404, ErrorJson("Task not found")) && db.Snapshot() == old(db.Snapshot())
    ensures OwnedTask(old(db.tasks), id, caller.id) ==>
              && resp == Reply(200, MessageJson("Task deleted successfully"))
              && db.Snapshot() == old(db.Snapshot()).(tasks := old(db.tasks) - {id})
  {
    var deleted := db.DeleteOwnedTask(id, caller.id);
    if |deleted| == 0 {
      return Reply(404, ErrorJson("Task not found"));
    }
    resp := Reply(200, MessageJson("Task deleted successfully"));
  }

  /**
   * A token this variant's login issued carries no role, so a request that
   * bears it, while it is valid, reaches the routes as a non-ADMIN caller:
   * the ADMIN branch of the task list is unreachable with such a token.
   */
  lemma LoginTokenNeverAdmin(req: Http.Request, scheme: string, u: User, secret: string, iat: int, now: int)
    requires ' ' !in scheme
    requires "authorization" in req.headers
    requires req.headers["authorization"] == scheme + " " + Sign(RootUsers.TokenClaims(u), secret, iat, OneHour)
    requires now < iat + OneHour
    ensures AuthMiddleware.AuthenticateToken(req, secret, now).Next?
    ensures AuthMiddleware.AuthenticateToken(req, secret, now).user.claims.id == u.id
    ensures !IsAdmin(AuthMiddleware.AuthenticateToken(req, secret, now).user.claims)
  {
    AuthMiddleware.SignedTokenPasses(req, scheme, RootUsers.TokenClaims(u), secret, iat, OneHour, now);
  }
}
