/**
 * routes/tasks.js: the SQL variant. Its own inline `authenticateToken`
 * answers with bare status codes, and its update binds every column,
 * so an absent description becomes NULL. Its list, create and delete do what
 * `TaskRoutes.MyTasks`, `TaskRoutes.CreateTask` and `RootTasks.DeleteTask` do.
 */
module JsTasks {
  import opened Wrappers
  import opened Schema
  import opened Jwt
  import opened Http
  import opened Db
  import AuthMiddleware

  /** The inline middleware: `sendStatus(401)` without a token, `sendStatus(403)` when it does not verify. */
  function AuthenticateToken(req: Request, secret: string, now: int): (g: AuthMiddleware.Gate)
    ensures AuthMiddleware.BearerToken(AuthMiddleware.AuthorizationHeader(req)).None? <==>
              g == AuthMiddleware.Respond(Reply(401, StatusText("Unauthorized")))
    ensures (AuthMiddleware.BearerToken(AuthMiddleware.AuthorizationHeader(req)).Some? &&
             Verify(AuthMiddleware.BearerToken(AuthMiddleware.AuthorizationHeader(req)).value, secret, now).Invalid?) <==>
              g == AuthMiddleware.Respond(Reply(403, StatusText("Forbidden")))
    ensures forall p :: (AuthMiddleware.BearerToken(AuthMiddleware.AuthorizationHeader(req)).Some? &&
                         Verify(AuthMiddleware.BearerToken(AuthMiddleware.AuthorizationHeader(req)).value, secret, now) == Valid(p)) <==>
                        g == AuthMiddleware.Next(p)
  {
    match AuthMiddleware.BearerToken(AuthMiddleware.AuthorizationHeader(req))
    case None => AuthMiddleware.Respond(Reply(401, StatusText("Unauthorized")))
    case Some(token) =>
      match Verify(token, secret, now)
      case Invalid(_) => AuthMiddleware.Respond(Reply(403, StatusText("Forbidden")))
      case Valid(p) => AuthMiddleware.Next(p)
  }

  /**
   * Both middlewares decide alike: the same requests pass with the same
   * `req.user`, and the refused ones get the same status code; only the body differs.
   */
  lemma SameDecision(req: Request, secret: string, now: int)
    ensures var js := AuthenticateToken(req, secret, now);
            var ts := AuthMiddleware.AuthenticateToken(req, secret, now);
            && (js.Next? <==> ts.Next?)
            && (js.Next? ==> js.user == ts.user)
            && (js.Respond? ==> js.response.status == ts.response.status)
  {
    match AuthMiddleware.BearerToken(AuthMiddleware.AuthorizationHeader(req))
    case None =>
    case Some(token) =>
      match Verify(token, secret, now)
      case Invalid(e) =>
        assert AuthMiddleware.AuthenticateToken(req, secret, now)
               == AuthMiddleware.Respond(Reply(403, ErrorDetailJson("Unauthorized", e)));
      case Valid(p) =>
        assert AuthMiddleware.AuthenticateToken(req, secret, now) == AuthMiddleware.Next(p);
  }

  /**
   * PUT /:id: `UPDATE ... WHERE id AND user_id RETURNING *`. Another user's
   * task and a missing task both give 404; the description is always written.
   */
  method UpdateTask(db: Store, caller: Claims, id: int, title: string, description: Option<string>, status: string)
    returns (resp: Response)
    requires db.Valid()
    modifies db
    ensures db.Valid()
    ensures !OwnedTask(old(db.tasks), id, caller.id) ==>
              resp == Reply(404, ErrorJson("Task not found")) && db.Snapshot() == old(db.Snapshot())
    ensures OwnedTask(old(db.tasks), id, caller.id) ==>
              var t := old(db.tasks)[id].(title := title, description := description, status := status);
              && resp == Reply(200, TaskJson(t))
              && db.Snapshot() == old(db.Snapshot()).(tasks := old(db.tasks)[id := t])
  {
    var rows := db.UpdateOwnedTask(id, caller.id, SqlTaskEdit(title, description, status));
    if |rows| == 0 {
      return Reply(404, ErrorJson("Task not found"));
    }
    resp := Reply(200, TaskJson(rows[0]));
  }

  /**
   * Where the variants part: a field left out of the body keeps its column
   * under Prisma, while the SQL update erases an absent description; with
   * every field given they agree. Neither ever changes the id or the owner.
   */
  lemma FieldsOmitted(t: Task, title: string, description: Option<string>, status: string)
    ensures ApplyTaskEdit(t, PrismaTaskEdit(None, None, None)) == t
    ensures ApplyTaskEdit(t, SqlTaskEdit(title, None, status)).description == None
    ensures ApplyTaskEdit(t, SqlTaskEdit(title, description, status)).id == t.id
    ensures ApplyTaskEdit(t, SqlTaskEdit(title, description, status)).userId == t.userId
    ensures description.Some? ==>
              ApplyTaskEdit(t, PrismaTaskEdit(Some(title), description, Some(status))) == ApplyTaskEdit(t, SqlTaskEdit(title, description, status))
  {
  }
}
