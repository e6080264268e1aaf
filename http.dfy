/**
 * Requests and responses as the handlers see them. No `Body` constructor has
 * a field of type `Bcrypt.Digest`: a password hash cannot appear in any
 * response.
 */
module Http {
  import opened Wrappers
  import opened Schema
  import Jwt

  /** Lower-cased request headers and parsed cookies. */
  datatype Request = Request(headers: map<string, string>, cookies: map<string, string>)

  /** A user projected to `{id, username}`. */
  datatype UserView = UserView(id: int, username: string)

  function View(u: User): UserView {
    UserView(u.id, u.username)
  }

  /** Every element of `rows`, projected. */
  function Views(rows: seq<User>): (views: seq<UserView>)
    ensures |views| == |rows|
    ensures forall i :: 0 <= i < |rows| ==> views[i] == View(rows[i])
  {
    seq(|rows|, i requires 0 <= i < |rows| => View(rows[i]))
  }

  /** JavaScript truthiness of an optional string field: present and non-empty. */
  predicate Truthy(field: Option<string>) {
    field.Some? && field.value != ""
  }

  /** The JSON (or, for `sendStatus`, plain text) body of a response. */
  datatype Body =
    | UserJson(user: UserView)
    | UserList(users: seq<UserView>)
    | UserRoleJson(id: int, username: string, role: Role)
    | TaskJson(task: Task)
    | TaskList(tasks: seq<Task>)
    | TokenJson(token: string)
    | MessageJson(message: string)
    | ErrorJson(error: string)
    | ErrorDetailJson(error: string, reason: Jwt.VerifyError)
    | StatusText(text: string)

  datatype Cookie = Cookie(name: string, value: string, httpOnly: bool, secure: bool, sameSite: string)

  datatype Response = Response(status: int, body: Body, cookie: Option<Cookie>)

  /** A response that sets no cookie. */
  function Reply(status: int, body: Body): Response {
    Response(status, body, None)
  }
}
