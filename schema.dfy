/** The two relations of the database, `User` and `Task`, and the `Role` enum. */
module Schema {
  import opened Wrappers
  import opened Bcrypt

  datatype Role = USER | ADMIN

  /**
   * What the database stores for a `role` value sent in a request body:
   * absent means the column default USER; a string that is not a member of
   * the enum is rejected by the client library (None).
   */
  function RoleFromBody(role: Option<string>): (r: Option<Role>)
    ensures role.None? ==> r == Some(USER)
    ensures r == Some(ADMIN) <==> role == Some("ADMIN")
    ensures r == Some(USER) <==> role.None? || role == Some("USER")
  {
    match role
    case None => Some(USER)
    case Some(s) => ParseRole(s)
  }

  /** The `role` of an update: absent keeps the column; `ValidRoleValue` says whether the enum accepts it. */
  function RoleEdit(role: Option<string>): (r: Option<Role>) {
    if role.Some? then ParseRole(role.value) else None
  }

  predicate ValidRoleValue(role: Option<string>) {
    role.None? || ParseRole(role.value).Some?
  }

  function ParseRole(s: string): (r: Option<Role>) {
    if s == "USER" then Some(USER) else if s == "ADMIN" then Some(ADMIN) else None
  }

  /** A row of `users`; `password` holds the bcrypt digest. */
  datatype User = User(id: int, username: string, password: Digest, role: Role)

  /** A row of `tasks`; `description` is nullable, `userId` is the owner. */
  datatype Task = Task(id: int, title: string, description: Option<string>, status: string, userId: int)

  /** The new description of an update: a Prisma `undefined` keeps the column, anything else sets it. */
  datatype DescriptionEdit = KeepDescription | SetDescription(value: Option<string>)

  /** The `data` of a task update: an absent title or status keeps its column. */
  datatype TaskEdit = TaskEdit(title: Option<string>, description: DescriptionEdit, status: Option<string>)

  /** The row an update leaves behind; the id and the owner never change. */
  function ApplyTaskEdit(t: Task, e: TaskEdit): (edited: Task) {
    Task(t.id, e.title.GetOr(t.title), if e.description.SetDescription? then e.description.value else t.description,
         e.status.GetOr(t.status), t.userId)
  }

  /** The `data` of `prisma.user.update`: an absent field keeps its column. */
  datatype UserEdit = UserEdit(username: Option<string>, password: Option<Digest>, role: Option<Role>)

  function ApplyUserEdit(u: User, e: UserEdit): (edited: User) {
    User(u.id, e.username.GetOr(u.username), e.password.GetOr(u.password), e.role.GetOr(u.role))
  }
}
