# node-api: authentication, authorisation and the ownership-scoped stores

node-api is a small task-tracking REST service. Users register, log in, and
get a signed JSON Web Token (RFC 7519) that says who they are. They then
create, list, update and delete their tasks. The repository contains three
variants of the same service, and this model keeps them apart:

- **server** (`server/`, Prisma). The token carries `{id, username, role}`
  and is valid for one day. Login sets it in an `accessToken` cookie. Only a
  token whose role is ADMIN may delete a task, and it may delete any task.
- **root TypeScript** (`routes/*.ts`, Prisma). The token carries
  `{id, username}` with no role and is valid for one hour. Login returns it
  in the JSON body `{token}`. A task delete is scoped to its owner.
- **root JavaScript** (`routes/*.js`, SQL). Same tokens as root TypeScript.
  Every task route is scoped to the owner. Its own inline middleware answers
  with bare status codes.

The browser side is `client/lib/api/auth.ts`. It keeps the token and an
expiry time in `localStorage` and decides when the session has expired.

## How the model is built

- `Db.Store` is a class holding the two tables and their id sequences. Each
  of its methods is one atomic statement. Its invariant `Valid()` says that
  rows are keyed by their id, ids lie below the sequence counter, and
  usernames are unique. Every handler method states the whole new state
  through `Snapshot()`, so "nothing else changes" is part of each contract.
- Each route is a method over the store. It takes the caller's decoded
  claims and the request fields, and returns a `Http.Response`. The three
  reading routes (GET /users, GET /my-tasks, GET /) and the logins change
  nothing.
- Where two variants run the same code, one member models both:
  - `Profiles` holds the user list, profile update, profile delete and the
    credential check.
  - `TaskRoutes` holds my-tasks, the task list, create and update.
  - The variant-specific parts live in `ServerUsers`, `ServerTasks`,
    `RootUsers`, `RootTasks` and `JsTasks`.
  - Each row of the table below names the other variants' copies of the code it stands for.
- bcrypt is a symbolic digest. `Compare(p, Hash(q))` holds iff `p` and `q`
  agree on their first 72 characters, so iff `p == q` when both are at most
  72 long. No
  `Http.Body` constructor has a field of the digest type, so no response can
  carry a password hash.
- jsonwebtoken is an idealised codec (`Jwt`):
  - A token is six '.'-separated fields, ending in a keyed digest of the other five.
  - The round trip, the expiry and the rejection of a forged signature are proved, not assumed.
  - `Verify` checks well-formedness, then the signature, then `exp`.
  - A token is refused at or after `exp`, as section 4.1.4 of RFC 7519 requires and as jsonwebtoken does.
  - Token times are in seconds. Client times are the milliseconds of `Date.getTime()`.
- The middleware reads `Authorization`, splits it on ' ' with JavaScript's
  `split` semantics, and takes the second field. This is a loose reading of
  the bearer scheme of section 2.1 of RFC 6750: the first word is never
  checked. No token gives 401. A token that does not verify gives 403.
  Otherwise the route runs with `req.user` set to the payload. The root
  TypeScript routes use a middleware file that is not part of this model;
  it is taken to behave as `server/middlewares/authenticateToken.ts`.
- Clocks and the signing secret are parameters. Prisma's `undefined` leaves a
  column unchanged. node-postgres binds `undefined` as NULL. A role string
  outside the enum is rejected by Prisma and turns into the route's 500.

What the proofs show about the code as written:

- The server variant's login puts the token only in a cookie, but its
  middleware reads only the header. A browser that relies on the cookie
  gets 401 (`AuthMiddleware.CookieOnlyIsMissing`, `Scenarios.CookieNotRead`).
  The server's tests send the token as a cookie; the model follows the
  middleware.
- A user may set their own role to ADMIN through the profile update. The
  user delete then reads that role from the database and lets them delete
  anyone (`Scenarios.SelfPromotion`).
- A token from the role-less logins never reaches the ADMIN branch of the
  task list (`RootTasks.LoginTokenNeverAdmin`).
- The code does not do what a stricter service would, and the model follows
  the code:
  - A duplicate username is a 500, not 409 Conflict (section 15.5.10 of RFC 9110).
  - Empty titles, usernames and passwords are accepted.
  - The username can be changed through the profile update.
  - The client stores the string "undefined" as its token when the server
    variant's login answers without one.

## Model

| member | source | states |
|---|---|---|
| Text.Split | server/middlewares/authenticateToken.ts:6 | `split(' ')`: at least one field, no field contains the separator, and joining the fields gives the input back |
| Text.SplitJoin | server/middlewares/authenticateToken.ts:6 | splitting undoes joining when no field holds the separator (the partner of `Split`) |
| Text.IntToString | client/lib/api/auth.ts:21 | `String(n)`: at least one character, with no space and no '.' |
| Text.ParseInt | client/lib/api/auth.ts:32 | `parseInt(s, 10)`: a run of digits reads as its decimal value, a leading digit gives a non-negative number, and text that starts with neither a digit nor a sign is NaN |
| Text.ParseIntIntToString | client/lib/api/auth.ts:20-33 | `parseInt(String(n), 10)` gives `n` back for every integer, negative ones included |
| Bcrypt.Significant | server/routes/users.ts:105 | bcrypt reads exactly the first 72 characters of a longer password, and all of a shorter one |
| Bcrypt.Hash | server/routes/users.ts:18 | every digest is made with cost factor 10, and the password it was made from matches it |
| Bcrypt.CompareHash | server/routes/users.ts:105 | a candidate matches a password's hash iff the two agree on their first 72 characters; for passwords of at most 72 characters, iff it is that password; routes/users.ts:110 and routes/users.js:37 call the same compare |
| Bcrypt.LongPasswordsCollide | server/routes/users.ts:105 | any extension of a password of 72 or more characters matches that password's hash |
| Schema.RoleFromBody | server/routes/users.ts:14-20 | an absent role stores USER; "ADMIN" and only "ADMIN" stores ADMIN; any string outside the enum stores nothing |
| Jwt.Sign | server/routes/users.ts:113-117 | a signed token is non-empty and has no space, so it fits in a bearer header |
| Jwt.Verify | server/middlewares/authenticateToken.ts:13 | a token verifies only strictly before its `exp` |
| Jwt.VerifySign | server/middlewares/authenticateToken.ts:13-20 | before `exp`, verifying a signed token returns exactly the signed claims, `iat` and `exp = iat + expiresIn` |
| Jwt.VerifyExpired | server/middlewares/authenticateToken.ts:13-17 | from `exp` on, the same token is refused as expired |
| Jwt.VerifyForged | server/middlewares/authenticateToken.ts:13-17 | a well-formed payload with a wrong signature is refused with a signature error at any time |
| Jwt.VerifyNoDots | server/middlewares/authenticateToken.ts:13-17 | text without '.' is refused as malformed |
| AuthMiddleware.BearerToken | server/middlewares/authenticateToken.ts:5-6 | a token found is non-empty, holds no space, and comes from a header that holds a space |
| AuthMiddleware.BearerTokenOf | server/middlewares/authenticateToken.ts:5-6 | for any first word, "word token" yields exactly the token: the scheme word is never checked |
| AuthMiddleware.AuthenticateToken | server/middlewares/authenticateToken.ts:4-21 | iff no token: 401 "Login Invalid or Token missing"; iff a token fails with error e: 403 with e; iff it verifies to p: the route runs with `req.user = p` |
| AuthMiddleware.CookieOnlyIsMissing | server/middlewares/authenticateToken.ts:5-11 | a request without an Authorization header gets 401 whatever cookies it carries |
| AuthMiddleware.NoSpaceIsMissing | server/middlewares/authenticateToken.ts:5-11 | a header without a space carries no token and gets 401 |
| AuthMiddleware.DoubleSpaceIsMissing | server/middlewares/authenticateToken.ts:5-11 | "word  token" with two spaces has an empty second field, so carries no token and gets 401 |
| AuthMiddleware.TrailingSpaceIsMissing | server/middlewares/authenticateToken.ts:5-11 | "word " with nothing after the space carries no token |
| AuthMiddleware.SecondOfMany | server/middlewares/authenticateToken.ts:5-6 | with more than two words, the token is the second word and the rest is ignored |
| AuthMiddleware.SignedTokenPasses | server/middlewares/authenticateToken.ts:13-20 | a header "word token" with a signed, unexpired token reaches the route with exactly the signed claims |
| AuthMiddleware.ExpiredTokenForbidden | server/middlewares/authenticateToken.ts:13-17 | the same header once the token has expired gets 403 (expired), never 401 |
| Db.FindUser | server/routes/users.ts:137-139 | `findUnique({ where: { id } })` finds a row iff the id is stored, and then exactly that row; routes/users.ts:133-135 is the same lookup |
| Db.SelectIds | server/routes/tasks.ts:16-18 | the ids below the sequence whose rows pass the filter, each exactly once, in ascending order |
| Db.AllUsers | server/routes/users.ts:38-40 | `findMany()` on users returns exactly the stored users, in ascending id order |
| Db.UsersNamed | routes/users.js:33 | `WHERE username = $1` returns exactly the users with that name |
| Db.FindByUsername | server/routes/users.ts:97 | the row found has that username; none found means no user has it |
| Db.FindByUsernameExactly | server/routes/users.ts:97 | with unique usernames, the lookup returns the one user of that name |
| Db.AllTasks | server/routes/tasks.ts:38 | `findMany()` on tasks returns exactly the stored tasks, in ascending id order |
| Db.TasksOwnedBy | server/routes/tasks.ts:41 | `where: { userId }` returns exactly the tasks of that owner, in ascending id order |
| Db.Store.CreateUser | server/routes/users.ts:19-22 | a taken username inserts nothing; otherwise one new row with the next id, and nothing else changes |
| Db.Store.UpdateUser | server/routes/users.ts:69-81 | a missing id or a username held by another user changes nothing; otherwise only that row changes, absent fields keep their columns |
| Db.Store.DeleteUser | server/routes/users.ts:149 | removes exactly that row and reports whether it existed |
| Db.Store.CreateTask | server/routes/tasks.ts:63-70 | one new task with the next id, and nothing else changes |
| Db.Store.UpdateOwnedTask | server/routes/tasks.ts:94-97 | only a task matching both id and owner changes; no match changes nothing and returns no rows |
| Db.Store.DeleteTask | server/routes/tasks.ts:132-134 | removes exactly that task and reports whether it existed |
| Db.Store.DeleteOwnedTask | routes/tasks.ts:97-102 | removes a task only when both id and owner match, returning it; otherwise nothing changes |
| Http.Views | server/routes/users.ts:38-40 | `select: { id, username }`: one projection per row, in the same order |
| Profiles.CheckCredentials | server/routes/users.ts:97-110 | a user is found iff some stored user has that username and a digest the password matches; an unknown name and a wrong password fail alike |
| Profiles.CheckCredentialsExactly | server/routes/users.ts:97-110 | the user found is the one with that name and password |
| Profiles.ListUsers | server/routes/users.ts:33-48 | 200 with every stored user as `{id, username}`, nothing else, ascending by id; routes/users.ts:43-56 is the same code in the root variant |
| Profiles.UpdateUser | server/routes/users.ts:51-89 | another id: 403 and nothing changes; own id: a truthy password is re-hashed, absent fields are kept, 200 `{id, username, role}`; a bad role, a missing row or a taken name: 500 and nothing changes; routes/users.ts:59-96 is the same code in the root variant |
| Profiles.DeleteUser | server/routes/users.ts:133-156 | allowed iff the path id is the caller's or the caller's stored role is ADMIN; 403 and nothing changes otherwise; a missing row gives 500; routes/users.ts:129-153 is the same code in the root variant |
| ServerUsers.Register | server/routes/users.ts:13-30 | stores the hash and the body's role (USER when absent) and answers 201 `{id, username}`; a role outside the enum or a taken name: 500 and no user added |
| ServerUsers.Login | server/routes/users.ts:92-130 | the same 401 for an unknown user and a wrong password; otherwise `{id, username, role}` signed for one day, set as the httpOnly, sameSite=lax `accessToken` cookie, secure only in production |
| ServerUsers.Logout | server/routes/users.ts:158-162 | always 200 "Logged out successfully" |
| TaskRoutes.MyTasks | server/routes/tasks.ts:10-26 | exactly the caller's tasks, whatever the role; routes/tasks.ts:9-19 is the same code in the root variant; routes/tasks.js:24-32, the SQL list, which has no ADMIN branch, returns the same |
| TaskRoutes.ListTasks | server/routes/tasks.ts:29-49 | every task for an ADMIN token, exactly the caller's own otherwise; routes/tasks.ts:22-33 is the same code in the root variant |
| TaskRoutes.CreateTask | server/routes/tasks.ts:52-78 | the new task is owned by the caller, never by the body, and answered with 201; nothing else changes; routes/tasks.ts:36-53 is the same code in the root variant; routes/tasks.js:35-47, the SQL insert, does likewise |
| TaskRoutes.UpdateTask | server/routes/tasks.ts:81-116 | a task neither missing nor another user's (ADMIN included) gets each of title, description and status that the body gives, and keeps the columns it leaves out; 200 with the re-read row; otherwise 404 and nothing changes; routes/tasks.ts:56-89 is the same code in the root variant |
| ServerTasks.DeleteTask | server/routes/tasks.ts:119-142 | a non-ADMIN token: 403 and nothing removed; an ADMIN removes any task by id; a missing id: 500 |
| RootUsers.Register | routes/users.ts:20-40 | any role in the body is ignored: a USER with the hash, 201 `{id, username}`; a taken name: 500 and no user added; routes/users.js:13-27, the SQL insert, behaves the same |
| RootUsers.Login | routes/users.ts:100-126 | the same 401 for an unknown user and a wrong password; otherwise `{id, username}` without role, signed for one hour, in the body; routes/users.js:30-53, the SQL login, behaves the same |
| RootTasks.DeleteTask | routes/tasks.ts:93-116 | removes a task only when id and owner match, answering the success message; otherwise 404 and nothing removed; routes/tasks.js:67-80, the SQL delete, behaves the same |
| RootTasks.LoginTokenNeverAdmin | routes/users.ts:116-121 | a request bearing this login's token reaches the routes as that user, and never as ADMIN |
| JsTasks.AuthenticateToken | routes/tasks.js:11-21 | iff no token: bare 401; iff the token fails: bare 403; iff it verifies to p: the route runs with `req.user = p` |
| JsTasks.SameDecision | routes/tasks.js:11-21 | the inline middleware and the server's pass the same requests with the same `req.user` and refuse the others with the same status |
| JsTasks.UpdateTask | routes/tasks.js:50-64 | only a task matching both id and caller changes, with every column rebound (an absent description becomes NULL); the updated row with 200; otherwise 404 and nothing changes |
| JsTasks.FieldsOmitted | routes/tasks.js:54-59 | a Prisma update with no fields leaves the task as it is; without a description the SQL update erases it; with every field given the two agree; the SQL update never changes id or owner |
| ClientAuth.LocalStorage.SetItem | client/lib/api/auth.ts:17-21 | stores one key and leaves the others |
| ClientAuth.LocalStorage.RemoveItem | client/lib/api/auth.ts:38 | removes one key and leaves the others |
| ClientAuth.LoginUser | client/lib/api/auth.ts:4-22 | a refused login throws "Login failed" before any write; otherwise the token and the expiry (now + 3,600,000 ms) are stored |
| ClientAuth.LogoutUser | client/lib/api/auth.ts:37-40 | only the expiry is removed |
| ClientAuth.IsTokenExpired | client/lib/api/auth.ts:25-34 | no stored expiry, or an empty one: expired; an expiry read as the number e: expired iff now > e; a non-empty expiry read as NaN: never expired |
| ClientAuth.NoExpiryIsExpired | client/lib/api/auth.ts:27-30 | with no stored expiry the session is expired |
| ClientAuth.LoginWindow | client/lib/api/auth.ts:17-33 | after a login at t the session is live iff now ≤ t + 3,600,000 (not expired at equality), and the received token is stored |
| ClientAuth.LogoutExpires | client/lib/api/auth.ts:37-39 | after logout the session is expired at once, and the token stays in storage |
| ClientAuth.UnparsableExpiryNeverExpires | client/lib/api/auth.ts:32-33 | an expiry that `parseInt` reads as NaN never expires |

## Left out

- bcrypt's random salt: `Hash` is deterministic and symbolic. The cost factor is recorded; the key schedule is not modelled.
- Byte encoding: bcrypt's 72-byte limit is modelled on characters, as if each were one byte; UTF-8 is not modelled.
- The real JWT format: no base64url, no JSON header, no HS256. `Jwt` keeps what the routes rely on: the claims, `iat`, `exp` and a keyed signature. The digest that stands in for HMAC is not collision-resistant.
- Jwt.Verify: does not model jsonwebtoken's `nbf`, `aud` or algorithm checks, nor clock tolerance.
- Missing JSON fields on create, register and login: a body without a title, username or password is taken to supply one. The resulting Prisma and SQL errors, and the throw of `bcrypt.compare` on an undefined password in the logins, all answered with 500, are not modelled.
- TaskRoutes.UpdateTask: a JSON `null` is taken as an absent field and keeps the column. Prisma instead writes NULL for `"description": null` and throws on `"title": null` or `"status": null` (a 500), because those columns are required.
- Profiles.UpdateUser: a JSON `null` username or role is taken as absent and keeps the column; Prisma throws on it instead, which the route answers with 500.
- ServerUsers.Register: a JSON `null` role is taken as absent and stores USER; Prisma throws on it instead, which the route answers with 500.
- JsTasks.UpdateTask: takes title and status as given; an SQL update whose body leaves them out would bind NULL, which is not modelled. The Prisma update's absent fields are modelled and keep their columns.
- Store failures other than a taken username or a missing row (connection loss, foreign keys): these are the catch-all 500s of every route. The list and login routes' "Failed to list users", "Failed to get tasks" and "Login failed" are among them.
- Foreign keys and cascades: the schema is not part of this model, so deleting a user leaves their tasks.
- A failed insert does not consume an id from the sequence here, while PostgreSQL may.
- Path ids are taken as integers; `parseInt` of the path is not modelled.
- Row order: databases return rows in an unspecified order; the model returns them by ascending id.
- Logging, app wiring, CORS and the `listen` call.
- `clearCookie` on logout and cookie serialisation.
- The client's redirect to /login, the `useSessionStatus` timer and the `signupUser` and `listTasks` fetch wrappers.
- Requests running concurrently: every route is one atomic step.
- Text.ParseInt: does not skip leading white space as JavaScript's `parseInt` does; the client never stores such text.
