/**
 * The task routes that server/routes/tasks.ts and routes/tasks.ts implement
 * with the same code. Every route sits behind `authenticateToken`; `caller`
 * is the decoded `req.user`. Reads and updates are scoped to the caller's own
 * tasks, except the list, which an ADMIN token widens to every task.
 */
module TaskRoutes {
  import opened Wrappers
  import opened Schema
  import opened Jwt
  import opened Http
  import opened Db

  /** Whether the token (not the database) names the ADMIN role. */
  predicate IsAdmin(caller: Claims) {
    caller.role == Some(ADMIN)
  }

  /** GET /my-tasks: exactly the caller's own tasks, whatever the role. */
  method MyTasks(db: Store, caller: Claims) returns (resp: Response)
    requires db.Valid()
    ensures resp.status == 200 && resp.body.TaskList? && resp.cookie.None?
    ensures forall t :: t in resp.body.tasks <==> t in db.tasks.Values && t.userId == caller.id
    ensures AscendingTasks(resp.body.tasks)
  {
    var tasks := TasksOwnedBy(db.tasks, db.nextTaskId, caller.id);
    resp := Reply(200, TaskList(tasks));
  }

  /** GET /: every task for an ADMIN token, otherwise the caller's own. */
  method ListTasks(db: Store, caller: Claims) returns (resp: Response)
    requires db.Valid()
    ensures resp.status == 200 && resp.body.TaskList? && resp.cookie.None?
    ensures IsAdmin(caller) ==> forall t :: t in resp.body.tasks <==> t in db.tasks.Values
    ensures !IsAdmin(caller) ==> forall t :: t in resp.body.tasks <==> t in db.tasks.Values && t.userId == caller.id
    ensures AscendingTasks(resp.body.tasks)
  {
    var tasks;
    if IsAdmin(caller) {
      tasks := AllTasks(db.tasks, db.nextTaskId);
    } else {
      tasks := TasksOwnedBy(db.tasks, db.nextTaskId, caller.id);
    }
    resp := Reply(200, TaskList(tasks));
  }

  /** POST /: a new task owned by the caller, whatever the body says. */
  method CreateTask(db: Store, caller: Claims, title: string, description: Option<string>, status: string)
    returns (resp: Response)
    requires db.Valid()
    modifies db
    ensures db.Valid()
    ensures var t := Task(old(db.nextTaskId), title, description, status, caller.id);
            && resp == Reply(201, TaskJson(t))
            && db.Snapshot() == old(db.Snapshot()).(tasks := old(db.tasks)[t.id := t], nextTaskId := t.id + 1)
  {
    var task := db.CreateTask(title, description, status, caller.id);
    resp := Reply(201, TaskJson(task));
  }

  /**
   * PUT /:id: `updateMany` filtered on the id and the caller, then the row
   * read back. Another user's task and a missing task both give 404; an
   * absent title, description or status keeps its column.
   */
  method UpdateTask(db: Store, caller: Claims, id: int, title: Option<string>, description: Option<string>, status: Option<string>)
    returns (resp: Response)
    requires db.Valid()
    modifies db
    ensures db.Valid()
    ensures !OwnedTask(old(db.tasks), id, caller.id) ==>
              resp == Reply(404, ErrorJson("Task not found")) && db.Snapshot() == old(db.Snapshot())
    ensures OwnedTask(old(db.tasks), id, caller.id) ==>
              var t := ApplyTaskEdit(old(db.tasks)[id], PrismaTaskEdit(title, description, status));
              && resp == Reply(200, TaskJson(t))
              && db.Snapshot() == old(db.Snapshot()).(tasks := old(db.tasks)[id := t])
  {
    var updated := db.UpdateOwnedTask(id, caller.id, PrismaTaskEdit(title, description, status));
    if |updated| == 0 {
      return Reply(404, ErrorJson("Task not found"));
    }
    var updatedTask := db.tasks[id];
    resp := Reply(200, TaskJson(updatedTask));
  }
}
