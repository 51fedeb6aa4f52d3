# Course platform API: a verified model of its request handling

This project models the core of a small Fastify HTTP API that stores users
and courses, authenticates requests by bearer token and gates some routes
by role. The model covers four parts:

- the `checkRequestJWT` preHandler hook: Authorization header, `Bearer `
  prefix, token extraction, the `JWT_SECRET` check, verification, and
  attaching `request.user`;
- the five user routes (create, list, get by id, update, delete) over a
  users table;
- the two course read routes (list, get by id) over a courses table;
- each route's order of stages: schema validation, then the hooks in
  registration order, then the handler.

Tables are maps from id to row (`Schema.UserTable`, `Schema.CourseTable`).
Each mutating handler (create, update, delete) is a function from the
table and the validated request to the new table and the reply
(`Users.Step`); the read handlers are functions from the table and the
request to the reply or the listing. `Users.UserStore` holds the
users table as mutable state. Its `Create`, `Update` and `Delete` methods
are proved to perform exactly those steps. The `Routes.Serve...` methods
run a whole request on a `UserStore` and an `Auth.Request`, and are proved
equal to the route functions in `Routes`.

Collaborators whose code is not part of this model are parameters
(`Routes.Env`):

- `jwt.verify` is an `Auth.Verifier` that returns a payload or nothing;
- `checkUserRole(roles)` is an `Auth.RoleGate` that returns nothing to let
  the request through, or the reply it sends;
- argon2 `hash` is a `Users.Hasher`;
- zod's email and uuid syntax checks are `Validation.Format` predicates;
- the configured `JWT_SECRET` is an optional string.

Facts about the code that the model keeps:

- The framework runs schema validation before preHandler hooks. So a
  malformed id or body gets 400 even with no Authorization header
  (`Routes.UpdateValidatesBeforeAuthenticating`).
- GET /users/:id and PUT /users/:id accept any admitted token, whatever
  its subject or role. So any token can read back a created user
  (`Routes.CreateThenGetThroughRoutes`), and a student can set any user's
  role (`Routes.AnyAuthenticatedUserMayUpdate`).
- Update's "empty string counts as absent" rule can only affect `email`.
  Validation has already rejected a name shorter than 2 and a password
  shorter than 6 (`Users.ValidatedNameAndPasswordSurvive`).
- An empty `JWT_SECRET` is treated like a missing one, because the check
  is JavaScript truthiness. An empty Authorization header is refused like a
  missing one.

## Model

| member | source | states |
|---|---|---|
| `Text.StartsWithIsPrefix` | src/routes/hooks/check-request-jwt.ts:15 | `startsWith` compared character by character is exactly the sequence-prefix relation (so it is case-sensitive) |
| `Text.ContainsAt` | src/routes/get-users.ts:45 | containment holds exactly when the needle is a prefix of some suffix of the text |
| `Text.Matches` | src/routes/get-users.ts:45 | the search filter with `ilike` read as case-insensitive containment, the evidently intended meaning; its meaning is stated by `Text.MatchesMeaning` |
| `Like.MatchesAsWritten` | src/routes/get-courses.ts:39 | the search filter as written: `ilike` with the unescaped pattern `%search%`; it is related to `Text.Matches` by `Like.AsWrittenAgreesOnPlainSearch` and `Like.UnderscoreSearchMatchesAnyName` |
| `Text.MatchesMeaning` | src/routes/get-users.ts:45 | a falsy search keeps every text; a truthy search keeps exactly the texts whose lower-cased form contains the lower-cased search at some position |
| `Text.MatchesIgnoresSearchCase` | src/routes/get-courses.ts:39 | the filter gives the same answer for the search text and for its lower-cased form |
| `Like.PlainPatternIsContainment` | src/routes/get-users.ts:45 | for a search with no `%`, `_` or `\`, the LIKE pattern `%search%` matches exactly the strings that contain the search |
| `Like.AsWrittenAgreesOnPlainSearch` | src/routes/get-courses.ts:39 | for such a search, the filter as written (`ilike` with the interpolated pattern) agrees with case-insensitive containment |
| `Like.UnderscoreSearchMatchesAnyName` | src/routes/get-users.ts:45 | the search `_` keeps the name `Ann` as written, though `Ann` does not contain `_` |
| `Ordering.SortedKeys` | src/routes/get-courses.ts:38 | a table's keys listed once each, in strictly ascending order |
| `Validation.ParseRole` | src/routes/create-user.ts:18 | exactly `student` and `manager` are roles |
| `Validation.ValidateCreateUser` | src/routes/create-user.ts:14-19 | the body is accepted iff name has at least 2 characters, the email passes the format check, the password has at least 6 characters and any given role is `student` or `manager`; accepted fields are passed on unchanged |
| `Validation.CreateRoleDefault` | src/routes/create-user.ts:18 | an omitted role becomes `student`; a given role is kept |
| `Validation.ValidateUpdateUser` | src/routes/update-user.ts:20-25 | every field is optional, and a present field is held to the creation rules; accepted name, email and password are passed on unchanged, and a given role is passed on as the role it names (`student` as `Student`, `manager` as `Manager`) |
| `Validation.ValidateCoursesQuery` | src/routes/get-courses.ts:14-18 | `orderBy` is accepted iff absent, `id` or `title`, and ordering is by title exactly for `title`; `page` defaults to 1; `search` is passed on |
| `Auth.Token` | src/routes/hooks/check-request-jwt.ts:19 | the header with its first seven characters removed, or the empty string for a shorter header (`substring` clamps) |
| `Auth.Authenticate` | src/routes/hooks/check-request-jwt.ts:13-31 | every refusal is 401 `{error:'Unauthorized'}`, every failure is the missing-secret error, and the request is admitted iff the header has the `Bearer ` prefix, the secret is set and non-empty, and the verifier accepts the rest of the header, with the verifier's payload |
| `Auth.MissingHeaderIsUnauthorized` | src/routes/hooks/check-request-jwt.ts:13-17 | no Authorization header gives 401, whatever the secret and the verifier |
| `Auth.WrongSchemeIsUnauthorized` | src/routes/hooks/check-request-jwt.ts:15-17 | a header without the exact `Bearer ` prefix gives 401, even when the secret is unset |
| `Auth.BasicAndLowerCaseBearerAreUnauthorized` | src/routes/hooks/check-request-jwt.ts:15-17 | `Basic xyz` and `bearer t` give 401 |
| `Auth.MissingSecretThrows` | src/routes/hooks/check-request-jwt.ts:19-23 | a well-formed bearer header with an unset or empty secret throws `JWT_SECRET must be set.` and sends no reply |
| `Auth.VerifiedTokenIsSuffix` | src/routes/hooks/check-request-jwt.ts:19-31 | the token verified is exactly the header with `Bearer ` removed; verification failure gives 401 and success admits with the decoded payload |
| `Auth.CheckRequestJwt` | src/routes/hooks/check-request-jwt.ts:9-32 | decides as `Authenticate` does; `request.user` becomes the payload on admission and is left as it was otherwise |
| `Auth.Guarded` | src/routes/delete-user.ts:8-9 | a route without hooks always proceeds; a route with hooks proceeds only if the JWT hook admits; a refused token halts with 401 `{error:'Unauthorized'}`, a missing secret halts by throwing `JWT_SECRET must be set.`, and a role gate that rejects an admitted payload halts with the gate's own reply |
| `Auth.RoleGateRunsAfterAuthentication` | src/routes/delete-user.ts:8-9 | when the JWT hook does not admit, the role gate is never consulted: the verdict is the JWT hook's whatever the gate |
| `Auth.AuthenticatedHasNoRoleGate` | src/routes/update-user.ts:9 | an authenticated-only route lets every admitted payload through, whatever its role |
| `Auth.RoleRestrictedProceeds` | src/routes/get-users.ts:8-9 | a manager-gated route proceeds iff the JWT hook admits and the gate passes the attached payload |
| `Auth.RunHooks` | src/routes/get-users.ts:8-9 | runs the hooks with the verdict of `Guarded`; `request.user` is set exactly when the JWT hook ran and admitted |
| `Users.InsertUser` | src/routes/create-user.ts:28-40 | replies 201 with the new id; exactly one row is added under that id, holding name, email and role as given and `hash(password)`; existing rows are untouched |
| `Users.UpdateSet` | src/routes/update-user.ts:40-44 | the `updateData` object; its fields are stated by `Users.UpdateSetFields` |
| `Users.Merge` | src/routes/update-user.ts:46-50 | one row after `.set(updateData)`; stated column by column by `Users.UpdateChangesOnlyGivenFields` |
| `Users.UpdateSetFields` | src/routes/update-user.ts:40-44 | name, email and password enter the update set iff present and non-empty; the password enters as its hash; the role enters iff given |
| `Users.ValidatedNameAndPasswordSurvive` | src/routes/update-user.ts:21-44 | after validation a present name always enters the update set, and a present password always enters it |
| `Users.BuildUpdateData` | src/routes/update-user.ts:40-44 | the field-by-field construction yields the update set |
| `Users.UpdateUser` | src/routes/update-user.ts:46-56 | no row is ever created or removed; other rows are untouched; an existing id gets the update set merged in and 200 `User updated successfully`; an absent id leaves the table unchanged with 404 `User not found` |
| `Users.UpdateChangesOnlyGivenFields` | src/routes/update-user.ts:40-50 | column by column: a truthy field replaces the stored value (the password by its hash), an absent or empty one keeps it, an absent role keeps the stored role |
| `Users.EmptyUpdateChangesNothing` | src/routes/update-user.ts:40-56 | an empty body on an existing id leaves the table unchanged and replies 200 |
| `Users.UpdateWithoutPasswordIsIdempotent` | src/routes/update-user.ts:40-50 | repeating an update whose body has no password leaves the table as the first update left it |
| `Users.DeleteUser` | src/routes/delete-user.ts:33-42 | the table afterwards lacks exactly that id; the reply is 200 `User deleted successfully` iff the id was present, else 404 `User not found` |
| `Users.DeleteRemovesOnlyThatRow` | src/routes/delete-user.ts:33-36 | deleting an existing id removes one row and keeps every other row with its values |
| `Users.DeleteTwiceIsNotFound` | src/routes/delete-user.ts:38-40 | a second delete of the same id replies 404 and changes nothing |
| `Schema.Project` | src/routes/get-user-by-id.ts:38-43 | the selected public columns of a row, without the password; that reads depend on nothing else is stated by `Users.ReadsIgnorePasswords` |
| `Users.GetUserById` | src/routes/get-user-by-id.ts:37-51 | replies 200 iff the id exists, with that id and the stored name, email and role; otherwise 404 `User not found` |
| `Users.Listing` | src/routes/get-users.ts:37-45 | the public columns of exactly the listed rows whose name matches, each once, in the order of the ids |
| `Users.GetUsers` | src/routes/get-users.ts:37-47 | every listed user is a stored row's public columns with a matching name; every stored row with a matching name is listed; no id is listed twice |
| `Users.GetUsersWithoutSearchListsEveryone` | src/routes/get-users.ts:45 | with no search or an empty one every user is listed |
| `Users.ListingIgnoresPasswords` | src/routes/get-users.ts:38-43 | the listing of two tables that differ only in passwords is the same |
| `Users.ReadsIgnorePasswords` | src/routes/get-user-by-id.ts:38-43 | neither the listing nor the lookup depends on a stored password, so neither reveals it |
| `Users.CreateThenGet` | src/routes/create-user.ts:30-40 | a created row reads back with 200 and exactly the given name, email and role |
| `Users.DeleteThenGet` | src/routes/delete-user.ts:33-36 | after a delete the lookup of that id replies 404 |
| `Users.UserStore.Create` | src/routes/create-user.ts:28-40 | the stored table and the reply are those of `InsertUser` on the old table |
| `Users.UserStore.Update` | src/routes/update-user.ts:37-56 | the stored table and the reply are those of `UpdateUser` on the old table |
| `Users.UserStore.Delete` | src/routes/delete-user.ts:31-42 | the stored table and the reply are those of `DeleteUser` on the old table |
| `Courses.Insert` | src/routes/get-courses.ts:38 | inserting into a sorted listing keeps it sorted and adds exactly that course |
| `Courses.InsertKeepsDistinct` | src/routes/get-courses.ts:38 | inserting a course whose id is not listed keeps ids distinct |
| `Courses.Sort` | src/routes/get-courses.ts:38 | the result is ascending on the chosen column and a permutation of the input; distinct ids stay distinct |
| `Courses.Summaries` | src/routes/get-courses.ts:39 | id and title of exactly the listed courses whose title matches, in id order |
| `Courses.GetCourses` | src/routes/get-courses.ts:32-42 | the listing is ascending on `orderBy`, lists no course twice, holds only stored courses with matching titles (with their stored title), and holds every such course |
| `Courses.GetCoursesWithoutSearchListsAll` | src/routes/get-courses.ts:39 | with no search or an empty one every course is listed |
| `Courses.NoMatchIsEmptyListing` | src/routes/get-courses.ts:35-41 | a search that no title matches gives the empty listing |
| `Courses.PageIsIgnored` | src/routes/get-courses.ts:33-39 | the listing is the same for every page number |
| `Courses.GetCourseById` | src/routes/get-course-by-id.ts:33-42 | replies 200 iff the id exists, with the stored id, title and description; otherwise 404 with the bare string `Course not found` |
| `Courses.NullDescriptionIsReturned` | src/routes/get-course-by-id.ts:23 | a null description is returned as null |
| `Routes.CreateUserRequest` | src/routes/create-user.ts:8-41 | an invalid body gives 400 and leaves the table unchanged; a valid one gives 201 with the new id, adds exactly that id, keeps every existing row, and stores under the new id the given name and email, `hash(password)` and the validated role (`student` when omitted) |
| `Routes.UpdateUserRequest` | src/routes/update-user.ts:9-57 | no row is ever created or removed; an invalid id or body gives 400 with no change; a halting JWT hook's outcome is the request's with no change; a valid, admitted request gets exactly `UpdateUser`'s new table and reply; so the table changes only if the JWT hook admitted and the id exists, and then the reply is 200 |
| `Routes.DeleteUserRequest` | src/routes/delete-user.ts:8-43 | the table either stays the same or loses exactly that id; an invalid id gives 400 with no change; a halting hook's outcome is the request's with no change; a valid request both hooks let through gets exactly `DeleteUser`'s new table and reply |
| `Routes.GetUserByIdRequest` | src/routes/get-user-by-id.ts:8-52 | a 200 reply needs a valid id, an admitted token and a stored user; an invalid id gives 400; a halting JWT hook's outcome is the request's; a valid id with an admitted token gets exactly the lookup's reply (the stored user with 200, or 404 `User not found`) |
| `Routes.GetUsersRequest` | src/routes/get-users.ts:8-48 | a halting hook's outcome is the request's; a missing secret throws; the listing is sent only when the JWT hook admits and the manager gate passes |
| `Routes.GetCoursesRequest` | src/routes/get-courses.ts:8-42 | replies 200 iff `orderBy` is absent, `id` or `title`, else 400; a 200 reply carries the listing `GetCourses` gives for the validated query (so by id when `orderBy` is absent) |
| `Routes.GetCourseByIdRequest` | src/routes/get-course-by-id.ts:8-43 | replies 200 iff the id passes the format check and exists; a valid id gets exactly the lookup's reply and an invalid one 400; no hook is consulted |
| `Routes.RejectedDeleteChangesNothing` | src/routes/delete-user.ts:8-9 | when a hook stops a delete, the table is unchanged and the hook's outcome is the request's |
| `Routes.DeleteTwiceThroughRoute` | src/routes/delete-user.ts:33-42 | through the route, the first delete of an existing user replies 200 and the second replies 404 with no change |
| `Routes.UpdateValidatesBeforeAuthenticating` | src/routes/update-user.ts:9-25 | an invalid id or an invalid update body gives 400 even without an Authorization header |
| `Routes.AnyAuthenticatedUserMayUpdate` | src/routes/update-user.ts:9 | any admitted token reaches the update, and a body role `manager` is stored |
| `Routes.ListingNeedsToken` | src/routes/get-users.ts:8 | a request refused by the JWT hook gets 401 from the listing route |
| `Routes.CreateThenGetThroughRoutes` | src/routes/create-user.ts:18-40 | a user created through POST /users reads back through GET /users/:id with the given name, email and role, `student` when omitted |
| `Routes.UnknownCourseIsPlainText` | src/routes/get-course-by-id.ts:42 | a valid but unknown course id gets 404 with the bare string `Course not found` |
| `Routes.ServeCreateUser` | src/routes/create-user.ts:25-41 | the store and the outcome are those of `CreateUserRequest` |
| `Routes.ServeUpdateUser` | src/routes/update-user.ts:36-57 | the store and the outcome are those of `UpdateUserRequest`; `request.user` is set only if validation passed and the JWT hook admitted |
| `Routes.ServeDeleteUser` | src/routes/delete-user.ts:30-43 | the store and the outcome are those of `DeleteUserRequest`; `request.user` is set as the JWT hook sets it |
| `Routes.ServeGetUserById` | src/routes/get-user-by-id.ts:34-52 | the outcome is that of `GetUserByIdRequest`; the store is not modified |
| `Routes.ServeGetUsers` | src/routes/get-users.ts:34-48 | the outcome is that of `GetUsersRequest`; the store is not modified |

## Findings

| source | as written | input that shows it | evidently intended | confidence | as-written member | corrected member |
|---|---|---|---|---|---|---|
| src/routes/get-users.ts:45 | the search text is put into the `ilike` pattern `%${search}%` unescaped, so `%`, `_` and `\` in it act as LIKE metacharacters (the course title filter at get-courses.ts:39 does the same) | GET /users?search=_ keeps a user named `Ann`, who has no underscore in the name | keep exactly the names (titles) that contain the search text, ignoring case | not executed; medium (the code's `%...%` wrapping shows a containment search was meant) | `Like.MatchesAsWritten` with `Like.UnderscoreSearchMatchesAnyName` | `Text.Matches` with `Text.MatchesMeaning` (the two agree on plain search text: `Like.AsWrittenAgreesOnPlainSearch`) |

## Left out

- Server construction, the logger, the API documentation plugins and route registration (src/app.ts) are framework plumbing. Each route's hook list is modelled as a `Guard` value instead.
- The database and the query builder are not modelled. They become in-memory maps, and each statement is one atomic step. Database errors, and the 5xx replies they cause, are not modelled.
- What the query builder does with an empty update set (`.set({})`) is not modelled. The model treats an update with nothing to set as changing nothing and replying 200.
- Id generation is a parameter `newId`. Its precondition (not already in the table) stands for the database's generator. That the new id is a uuid is not modelled.
- Token signing and verification are the `Verifier` parameter. Extra claims such as `iat` and `exp` are not modelled. Non-object payloads are not modelled either, and neither is the unchecked `as JWTPayload` cast. The token's role is a snapshot: nothing re-reads the stored role.
- Password hashing is the `Hasher` parameter. The model does not assume that a hash differs from its input. So "the stored password is never the plaintext" is stated as "the stored password is `hash(password)`".
- Users.Hasher: argon2 draws a fresh random salt on every call, so its output is not a function of the password. The model's `Hasher` stands for one salted draw per request. Equalities between stored hashes across requests or users mean nothing: two updates with the same password, or two users with equal passwords, need not store equal hashes in the program. For this reason `Users.UpdateWithoutPasswordIsIdempotent` leaves passwords out.
- Auth.Verifier: token verification also reads the clock (expiry), so the same token may be accepted by one request and refused by a later one. The model's `Verifier` is one function for all the requests a lemma relates. `Routes.DeleteTwiceThroughRoute` therefore assumes both requests get the same verdict.
- Email and uuid syntax checks are `Format` parameters.
- The validator's error body is the opaque `ValidationError`.
- zod counts string length in UTF-16 code units; the model counts Dafny characters.
- Number coercion of `page` is not modelled. Its value arrives as an `int`, so a non-numeric page, which the validator would reject, is not modelled.
- check-user-role.ts is not part of this model. The role gate is the `RoleGate` parameter, so the shape of its rejection reply is whatever it returns.
- login.ts and create-course.ts are not part of this model. The courses table is a fixed map.
- Database collation is not modelled. Lower-casing covers ASCII letters only. Ascending order is code-point order on the column's text; for canonical lower-case uuids that agrees with byte order.
- Users.GetUsers and Courses.GetCourses filter with `Text.Matches`, which is case-insensitive containment. For a search holding `%`, `_` or `\`, they differ from the program's `ilike` filter, which `Like.MatchesAsWritten` models (see "## Findings").
- Users.GetUsers: the query has no ORDER BY, so the model lists users in ascending id order. Its contract promises no order.
- Courses.GetCourses: the database may return equal titles in any order. The model's insertion sort fixes one such order, and the contract promises only ascending order.
- Turning a thrown error into a 500 reply is not modelled. That is the framework's error handler's job, so the model ends such a request in a `Thrown` outcome.
- Asynchronous execution and concurrent requests are not modelled. Each request is one sequential step.
- The query of GET /users is not validated, because its schema is declared under a key the framework does not read. The search is taken as an optional string; a repeated `search` parameter, which arrives as an array, is not modelled.
