/**
 * The task delete of server/routes/tasks.ts: only a token that says ADMIN
 * may delete, and it may delete any task. The other task routes are in
 * `TaskRoutes`.
 */
module ServerTasks {
  import opened Jwt
  import opened Http
  import opened Db
  import opened TaskRoutes

  const AdminOnlyDelete := "Unauthorized: Only ADMIN users can delete tasks."

  /**
   * DELETE /:id: refused unless the token says ADMIN; an ADMIN may delete
   * any task, and deleting a missing one is a 500.
   */
  method DeleteTask(db: Store, caller: Claims, id: int) returns (resp: Response)
    requires db.Valid()
    modifies db
    ensures db.Valid()
    ensures !IsAdmin(caller) ==>
              resp == Reply(403, ErrorJson(AdminOnlyDelete)) && db.Snapshot() == old(db.Snapshot())
    ensures IsAdmin(caller) && id in old(db.tasks) ==>
              && resp == Reply(200, MessageJson("Task deleted successfully"))
              && db.Snapshot() == old(db.Snapshot()).(tasks := old(db.tasks) - {id})
    ensures IsAdmin(caller) && id !in old(db.tasks) ==>
              resp == Reply(500, ErrorJson("Failed to delete task")) && db.Snapshot() == old(db.Snapshot())
  {
    if !IsAdmin(caller) {
      return Reply(403, ErrorJson(AdminOnlyDelete));
    }
    var deleted := db.DeleteTask(id);
    if !deleted {
      return Reply(500, ErrorJson("Failed to delete task"));
    }
    resp := Reply(200, MessageJson("Task deleted successfully"));
  }
}
