/**
 * The database behind the three variants (the Prisma client and the
 * PostgreSQL pool): a `users` and a `tasks` table keyed by an
 * auto-incremented id. Every method of `Store` is one atomic statement.
 * Queries return rows in ascending id order.
 */
module Db {
  import opened Wrappers
  import opened Bcrypt
  import opened Schema

  // ---------------------------------------------------------------------
  // Queries, as functions of the tables

  /** The ids in [lo, hi) whose rows satisfy `keep`, ascending. */
  function SelectIds<T>(table: map<int, T>, keep: T -> bool, lo: int, hi: int): (ids: seq<int>)
    ensures forall i :: 0 <= i < |ids| ==> lo <= ids[i] < hi && ids[i] in table && keep(table[ids[i]])
    ensures forall id :: lo <= id < hi && id in table && keep(table[id]) ==> id in ids
    ensures forall i, j :: 0 <= i < j < |ids| ==> ids[i] < ids[j]
    decreases hi - lo
  {
    if hi <= lo then []
    else
      var rest := SelectIds(table, keep, lo + 1, hi);
      if lo in table && keep(table[lo]) then [lo] + rest else rest
  }

  function Rows<T>(table: map<int, T>, ids: seq<int>): (rows: seq<T>)
    requires forall i :: 0 <= i < |ids| ==> ids[i] in table
  {
    seq(|ids|, i requires 0 <= i < |ids| => table[ids[i]])
  }

  /** A table whose keys are the ids of its rows, all drawn below `next`. */
  ghost predicate UsersKeyed(users: map<int, User>, next: int) {
    1 <= next && forall id :: id in users ==> 1 <= id < next && users[id].id == id
  }

  ghost predicate TasksKeyed(tasks: map<int, Task>, next: int) {
    1 <= next && forall id :: id in tasks ==> 1 <= id < next && tasks[id].id == id
  }

  /** The unique constraint on `users.username`. */
  ghost predicate UniqueUsernames(users: map<int, User>) {
    forall a, b :: a in users && b in users && users[a].username == users[b].username ==> a == b
  }

  ghost predicate AscendingUsers(rows: seq<User>) {
    forall i, j :: 0 <= i < j < |rows| ==> rows[i].id < rows[j].id
  }

  ghost predicate AscendingTasks(rows: seq<Task>) {
    forall i, j :: 0 <= i < j < |rows| ==> rows[i].id < rows[j].id
  }

  /** `findMany()` on users. */
  function AllUsers(users: map<int, User>, next: int): (rows: seq<User>)
    requires UsersKeyed(users, next)
    ensures forall u :: u in rows <==> u in users.Values
    ensures AscendingUsers(rows)
  {
    var ids := SelectIds(users, (u: User) => true, 1, next);
    var rows := Rows(users, ids);
    assert forall u :: u in users.Values ==> u in rows by {
      forall u | u in users.Values ensures u in rows {
        var id :| id in users && users[id] == u;
        var i :| 0 <= i < |ids| && ids[i] == id;
        assert rows[i] == u;
      }
    }
    rows
  }

  /** `WHERE username = name` on users. */
  function UsersNamed(users: map<int, User>, next: int, name: string): (rows: seq<User>)
    requires UsersKeyed(users, next)
    ensures forall u :: u in rows <==> u in users.Values && u.username == name
  {
    var ids := SelectIds(users, (u: User) => u.username == name, 1, next);
    var rows := Rows(users, ids);
    assert forall u :: u in users.Values && u.username == name ==> u in rows by {
      forall u | u in users.Values && u.username == name ensures u in rows {
        var id :| id in users && users[id] == u;
        var i :| 0 <= i < |ids| && ids[i] == id;
        assert rows[i] == u;
      }
    }
    rows
  }

  /** `findUnique({ where: { username } })`, equally the first row of `SELECT ... WHERE username = $1`. */
  function FindByUsername(users: map<int, User>, next: int, name: string): (found: Option<User>)
    requires UsersKeyed(users, next) && UniqueUsernames(users)
    ensures found.Some? ==> found.value in users.Values && found.value.username == name
    ensures found.None? ==> forall u :: u in users.Values ==> u.username != name
  {
    var rows := UsersNamed(users, next, name);
    if |rows| == 0 then None else Some(rows[0])
  }

  /** `findUnique({ where: { id } })`. */
  function FindUser(users: map<int, User>, id: int): (found: Option<User>)
    ensures found.Some? <==> id in users
    ensures found.Some? ==> found.value == users[id]
  {
    if id in users then Some(users[id]) else None
  }

  /** `findMany()` on tasks. */
  function AllTasks(tasks: map<int, Task>, next: int): (rows: seq<Task>)
    requires TasksKeyed(tasks, next)
    ensures forall t :: t in rows <==> t in tasks.Values
    ensures AscendingTasks(rows)
  {
    var ids := SelectIds(tasks, (t: Task) => true, 1, next);
    var rows := Rows(tasks, ids);
    assert forall t :: t in tasks.Values ==> t in rows by {
      forall t | t in tasks.Values ensures t in rows {
        var id :| id in tasks && tasks[id] == t;
        var i :| 0 <= i < |ids| && ids[i] == id;
        assert rows[i] == t;
      }
    }
    rows
  }

  /** `findMany({ where: { userId } })`, equally `SELECT * FROM tasks WHERE user_id = $1`. */
  function TasksOwnedBy(tasks: map<int, Task>, next: int, owner: int): (rows: seq<Task>)
    requires TasksKeyed(tasks, next)
    ensures forall t :: t in rows <==> t in tasks.Values && t.userId == owner
    ensures AscendingTasks(rows)
  {
    var ids := SelectIds(tasks, (t: Task) => t.userId == owner, 1, next);
    var rows := Rows(tasks, ids);
    assert forall t :: t in tasks.Values && t.userId == owner ==> t in rows by {
      forall t | t in tasks.Values && t.userId == owner ensures t in rows {
        var id :| id in tasks && tasks[id] == t;
        var i :| 0 <= i < |ids| && ids[i] == id;
        assert rows[i] == t;
      }
    }
    rows
  }

  /** Whether some user already has `name`. */
  predicate NameTaken(users: map<int, User>, name: string) {
    exists u :: u in users.Values && u.username == name
  }

  /** Whether a user other than `id` has `name`. */
  predicate NameTakenByOther(users: map<int, User>, name: string, id: int) {
    exists u :: u in users.Values && u.username == name && u.id != id
  }

  /** Whether task `id` exists and belongs to `owner`: the filter `{ id, userId }`. */
  predicate OwnedTask(tasks: map<int, Task>, id: int, owner: int) {
    id in tasks && tasks[id].userId == owner
  }

  /** Whether the row named `name` holds a digest that `password` matches. */
  ghost predicate CredentialsMatch(users: map<int, User>, name: string, password: string) {
    exists u :: u in users.Values && u.username == name && Compare(password, u.password)
  }

  /** `data: { title, description, status }` under Prisma: an undefined field is left as it is. */
  function PrismaTaskEdit(title: Option<string>, description: Option<string>, status: Option<string>): TaskEdit {
    TaskEdit(title, if description.Some? then SetDescription(description) else KeepDescription, status)
  }

  /** `SET title = $1, description = $2, status = $3` under node-postgres: an undefined description is bound as NULL. */
  function SqlTaskEdit(title: string, description: Option<string>, status: string): TaskEdit {
    TaskEdit(Some(title), SetDescription(description), Some(status))
  }

  /** The whole database state, for saying what an operation leaves alone. */
  datatype Tables = Tables(users: map<int, User>, tasks: map<int, Task>, nextUserId: int, nextTaskId: int)

  // ---------------------------------------------------------------------
  // The tables and their statements

  class Store {
    var users: map<int, User>
    var tasks: map<int, Task>
    var nextUserId: int
    var nextTaskId: int

    ghost predicate Valid()
      reads this
    {
      UsersKeyed(users, nextUserId) && TasksKeyed(tasks, nextTaskId) && UniqueUsernames(users)
    }

    ghost function Snapshot(): Tables
      reads this
    {
      Tables(users, tasks, nextUserId, nextTaskId)
    }

    /** An empty database whose sequences start at 1. */
    constructor ()
      ensures Valid()
      ensures Snapshot() == Tables(map[], map[], 1, 1)
    {
      users, tasks := map[], map[];
      nextUserId, nextTaskId := 1, 1;
    }

    /** `INSERT` into users; a taken username violates the unique constraint and inserts nothing. */
    method CreateUser(username: string, password: Digest, role: Role) returns (created: Option<User>)
      requires Valid()
      modifies this
      ensures Valid()
      ensures NameTaken(old(users), username) ==> created == None && Snapshot() == old(Snapshot())
      ensures !NameTaken(old(users), username) ==>
                var u := User(old(nextUserId), username, password, role);
                && created == Some(u)
                && Snapshot() == old(Snapshot()).(users := old(users)[u.id := u], nextUserId := u.id + 1)
    {
      if NameTaken(users, username) {
        return None;
      }
      var u := User(nextUserId, username, password, role);
      users := users[u.id := u];
      nextUserId := nextUserId + 1;
      created := Some(u);
    }

    /**
     * `prisma.user.update({ where: { id }, data })`: fails when there is no
     * such user or the new username belongs to another user.
     */
    method UpdateUser(id: int, edit: UserEdit) returns (updated: Option<User>)
      requires Valid()
      modifies this
      ensures Valid()
      ensures (id !in old(users) || (edit.username.Some? && NameTakenByOther(old(users), edit.username.value, id))) ==>
                updated == None && Snapshot() == old(Snapshot())
      ensures !(id !in old(users) || (edit.username.Some? && NameTakenByOther(old(users), edit.username.value, id))) ==>
                var u := ApplyUserEdit(old(users)[id], edit);
                && updated == Some(u)
                && Snapshot() == old(Snapshot()).(users := old(users)[id := u])
    {
      if id !in users || (edit.username.Some? && NameTakenByOther(users, edit.username.value, id)) {
        return None;
      }
      var u := ApplyUserEdit(users[id], edit);
      users := users[id := u];
      updated := Some(u);
    }

    /** `prisma.user.delete({ where: { id } })`: fails when there is no such user. */
    method DeleteUser(id: int) returns (deleted: bool)
      requires Valid()
      modifies this
      ensures Valid()
      ensures deleted == (id in old(users))
      ensures Snapshot() == old(Snapshot()).(users := old(users) - {id})
    {
      deleted := id in users;
      users := users - {id};
    }

    /** `INSERT` into tasks. */
    method CreateTask(title: string, description: Option<string>, status: string, userId: int) returns (task: Task)
      requires Valid()
      modifies this
      ensures Valid()
      ensures task == Task(old(nextTaskId), title, description, status, userId)
      ensures Snapshot() == old(Snapshot()).(tasks := old(tasks)[task.id := task], nextTaskId := task.id + 1)
    {
      task := Task(nextTaskId, title, description, status, userId);
      tasks := tasks[task.id := task];
      nextTaskId := nextTaskId + 1;
    }

    /**
     * `UPDATE tasks ... WHERE id AND userId = owner`, returning the rows it
     * changed: the one task when it exists and is owned by `owner`, else none.
     */
    method UpdateOwnedTask(id: int, owner: int, edit: TaskEdit) returns (updated: seq<Task>)
      requires Valid()
      modifies this
      ensures Valid()
      ensures !OwnedTask(old(tasks), id, owner) ==> updated == [] && Snapshot() == old(Snapshot())
      ensures OwnedTask(old(tasks), id, owner) ==>
                var t := ApplyTaskEdit(old(tasks)[id], edit);
                && updated == [t]
                && Snapshot() == old(Snapshot()).(tasks := old(tasks)[id := t])
    {
      if !OwnedTask(tasks, id, owner) {
        return [];
      }
      var t := ApplyTaskEdit(tasks[id], edit);
      tasks := tasks[id := t];
      updated := [t];
    }

    /** `prisma.task.delete({ where: { id } })`: fails when there is no such task. */
    method DeleteTask(id: int) returns (deleted: bool)
      requires Valid()
      modifies this
      ensures Valid()
      ensures deleted == (id in old(tasks))
      ensures Snapshot() == old(Snapshot()).(tasks := old(tasks) - {id})
    {
      deleted := id in tasks;
      tasks := tasks - {id};
    }

    /** `DELETE FROM tasks WHERE id AND userId = owner`, returning the rows it removed. */
    method DeleteOwnedTask(id: int, owner: int) returns (deleted: seq<Task>)
      requires Valid()
      modifies this
      ensures Valid()
      ensures !OwnedTask(old(tasks), id, owner) ==> deleted == [] && Snapshot() == old(Snapshot())
      ensures OwnedTask(old(tasks), id, owner) ==>
                deleted == [old(tasks)[id]] && Snapshot() == old(Snapshot()).(tasks := old(tasks) - {id})
    {
      if !OwnedTask(tasks, id, owner) {
        return [];
      }
      deleted := [tasks[id]];
      tasks := tasks - {id};
    }
  }

  /** With unique usernames, a username names one row and the lookup finds that row. */
  lemma FindByUsernameExactly(users: map<int, User>, next: int, name: string, u: User)
    requires UsersKeyed(users, next) && UniqueUsernames(users)
    requires u in users.Values && u.username == name
    ensures FindByUsername(users, next, name) == Some(u)
  {
    var found := FindByUsername(users, next, name).value;
    var a :| a in users && users[a] == u;
    var b :| b in users && users[b] == found;
  }
}
