/** The routes as the server registers them: each runs schema validation,
    then its preHandler hooks in registration order, then its handler.
    In the framework's request lifecycle validation comes before preHandler
    hooks, so a malformed request is rejected with 400 before any token is
    looked at. Each route is a function of the table and the request, and
    the `Serve...` methods perform it on a UserStore and a Request. */
module Routes {
  import opened Wrappers
  import opened Schema
  import opened Http
  import opened Validation
  import opened Auth
  import opened Users
  import opened Courses

  /** The server's configuration and the collaborators it calls. */
  datatype Env = Env(
    secret: Option<string>,   // process.env.JWT_SECRET
    verify: Verifier,         // jwt.verify
    checkUserRole: RoleGate,  // checkUserRole(roles)
    hash: Hasher,             // argon2 hash
    isEmail: Format,          // z.string().email()
    isUuid: Format)           // z.uuid()

  /** `checkUserRole(['manager'])`. */
  const Managers: seq<Role> := [Manager]

  /** The hooks each user route registers (get-users.ts:8-9,
      get-user-by-id.ts:8, update-user.ts:9, delete-user.ts:8-9);
      create-user and the course routes register none. */
  const GetUsersGuard: Guard := RoleRestricted(Managers)
  const GetUserByIdGuard: Guard := Authenticated
  const UpdateUserGuard: Guard := Authenticated
  const DeleteUserGuard: Guard := RoleRestricted(Managers)

  /** A request's effect on the users table and how it ends. */
  datatype Exchange = Exchange(table: UserTable, outcome: Outcome)

  /** `request.user` after the hooks of `guard` ran on a request that passed
      validation. */
  function UserAfterHooks(header: Option<string>, env: Env, guard: Guard, before: Option<Payload>): Option<Payload>
  {
    if !guard.Public? && Authenticate(header, env.secret, env.verify).Admit?
    then Some(Authenticate(header, env.secret, env.verify).payload)
    else before
  }

  function Hooks(header: Option<string>, env: Env, guard: Guard): Verdict
  {
    Guarded(header, env.secret, env.verify, env.checkUserRole, guard)
  }

  // -------------------------------------------------------------- requests

  /** POST /users: no hooks; validation, then the insert. */
  function CreateUserRequest(table: UserTable, body: CreateUserInput, newId: UserId, env: Env): (x: Exchange)
    requires newId !in table
    ensures ValidateCreateUser(body, env.isEmail).None? ==> x == Exchange(table, Sent(BadRequest))
    ensures ValidateCreateUser(body, env.isEmail).Some? ==>
      && x.outcome == Sent(Reply(201, UserIdBody(newId)))
      && x.table.Keys == table.Keys + {newId}
      && forall k | k in table :: x.table[k] == table[k]
    ensures ValidateCreateUser(body, env.isEmail).Some? ==>
      x.table[newId] == UserRow(body.name, body.email, env.hash(body.password), ValidateCreateUser(body, env.isEmail).value.role)
  {
    match ValidateCreateUser(body, env.isEmail)
    case None => Exchange(table, Sent(BadRequest))
    case Some(user) =>
      var s := InsertUser(table, user, newId, env.hash);
      Exchange(s.table, Sent(s.reply))
  }

  /** PUT /users/:id: validation of the id and body, the JWT hook, then the
      update. */
  function UpdateUserRequest(table: UserTable, header: Option<string>, id: UserId, body: UpdateUserInput, env: Env): (x: Exchange)
    ensures x.table.Keys == table.Keys
    ensures x.table != table ==>
      Hooks(header, env, UpdateUserGuard) == Proceed && id in table && x.outcome == Sent(UserUpdated)
    ensures !env.isUuid(id) || ValidateUpdateUser(body, env.isEmail).None? ==> x == Exchange(table, Sent(BadRequest))
    ensures env.isUuid(id) && ValidateUpdateUser(body, env.isEmail).Some? && Hooks(header, env, UpdateUserGuard).Halt? ==>
      x == Exchange(table, Hooks(header, env, UpdateUserGuard).outcome)
    ensures env.isUuid(id) && ValidateUpdateUser(body, env.isEmail).Some? && Hooks(header, env, UpdateUserGuard) == Proceed ==>
      var s := UpdateUser(table, id, ValidateUpdateUser(body, env.isEmail).value, env.hash);
      x == Exchange(s.table, Sent(s.reply))
  {
    var patch := ValidateUpdateUser(body, env.isEmail);
    if !env.isUuid(id) || patch.None? then Exchange(table, Sent(BadRequest))
    else match Hooks(header, env, UpdateUserGuard)
      case Halt(o) => Exchange(table, o)
      case Proceed =>
        var s := UpdateUser(table, id, patch.value, env.hash);
        Exchange(s.table, Sent(s.reply))
  }

  /** DELETE /users/:id: validation of the id, the JWT hook, the manager
      gate, then the delete. */
  function DeleteUserRequest(table: UserTable, header: Option<string>, id: UserId, env: Env): (x: Exchange)
    ensures x.table == table || x.table == table - {id}
    ensures x.table != table ==>
      Hooks(header, env, DeleteUserGuard) == Proceed && x.outcome == Sent(UserDeleted)
    ensures !env.isUuid(id) ==> x == Exchange(table, Sent(BadRequest))
    ensures env.isUuid(id) && Hooks(header, env, DeleteUserGuard).Halt? ==>
      x == Exchange(table, Hooks(header, env, DeleteUserGuard).outcome)
    ensures env.isUuid(id) && Hooks(header, env, DeleteUserGuard) == Proceed ==>
      x == Exchange(DeleteUser(table, id).table, Sent(DeleteUser(table, id).reply))
  {
    if !env.isUuid(id) then Exchange(table, Sent(BadRequest))
    else match Hooks(header, env, DeleteUserGuard)
      case Halt(o) => Exchange(table, o)
      case Proceed =>
        var s := DeleteUser(table, id);
        Exchange(s.table, Sent(s.reply))
  }

  /** GET /users/:id: validation of the id, the JWT hook, the lookup. */
  function GetUserByIdRequest(table: UserTable, header: Option<string>, id: UserId, env: Env): (o: Outcome)
    ensures o.Sent? && o.reply.status == 200 ==>
      env.isUuid(id) && Hooks(header, env, GetUserByIdGuard) == Proceed && id in table
    ensures env.isUuid(id) && Hooks(header, env, GetUserByIdGuard) == Proceed ==>
      o == Sent(GetUserById(table, id))
    ensures !env.isUuid(id) ==> o == Sent(BadRequest)
    ensures env.isUuid(id) && Hooks(header, env, GetUserByIdGuard).Halt? ==>
      o == Hooks(header, env, GetUserByIdGuard).outcome
  {
    if !env.isUuid(id) then Sent(BadRequest)
    else match Hooks(header, env, GetUserByIdGuard)
      case Halt(o) => o
      case Proceed => Sent(GetUserById(table, id))
  }

  /** GET /users: the JWT hook, the manager gate, the listing. The query is
      not validated (the route declares its schema under a key the framework
      does not read). */
  function GetUsersRequest(table: UserTable, header: Option<string>, search: Option<string>, env: Env): (o: Outcome)
    ensures Hooks(header, env, GetUsersGuard).Halt? ==> o == Hooks(header, env, GetUsersGuard).outcome
    ensures Authenticate(header, env.secret, env.verify).Fail? ==> o == Thrown(MissingSecret)
    ensures Hooks(header, env, GetUsersGuard) == Proceed ==>
      && Authenticate(header, env.secret, env.verify).Admit?
      && env.checkUserRole(Authenticate(header, env.secret, env.verify).payload, Managers).None?
      && o == Sent(Reply(200, UsersBody(GetUsers(table, search))))
  {
    match Hooks(header, env, GetUsersGuard)
    case Halt(o) => o
    case Proceed => Sent(Reply(200, UsersBody(GetUsers(table, search))))
  }

  /** GET /courses: validation of the query, then the listing; no hooks. */
  function GetCoursesRequest(table: CourseTable, query: CoursesQueryInput): (r: Reply)
    ensures r.status == 200 <==> (query.orderBy.Some? ==> query.orderBy.value in {"id", "title"})
    ensures r.status != 200 ==> r == BadRequest
    ensures ValidateCoursesQuery(query).Some? ==>
      r == Reply(200, CoursesBody(GetCourses(table, ValidateCoursesQuery(query).value)))
  {
    match ValidateCoursesQuery(query)
    case None => BadRequest
    case Some(q) => Reply(200, CoursesBody(GetCourses(table, q)))
  }

  /** GET /courses/:id: validation of the id, then the lookup; no hooks. */
  function GetCourseByIdRequest(table: CourseTable, id: CourseId, env: Env): (r: Reply)
    ensures r.status == 200 <==> env.isUuid(id) && id in table
    ensures env.isUuid(id) ==> r == GetCourseById(table, id)
    ensures !env.isUuid(id) ==> r == BadRequest
  {
    if !env.isUuid(id) then BadRequest else GetCourseById(table, id)
  }

  // -------------------------------------------------------------- properties

  /** When the JWT hook or the manager gate stops a delete, the table is
      unchanged and the hook's outcome is the request's. */
  lemma RejectedDeleteChangesNothing(table: UserTable, header: Option<string>, id: UserId, env: Env)
    requires env.isUuid(id)
    requires Hooks(header, env, DeleteUserGuard).Halt?
    ensures DeleteUserRequest(table, header, id, env) == Exchange(table, Hooks(header, env, DeleteUserGuard).outcome)
  {
  }

  /** Deleting the same user twice: the second request finds nothing. */
  lemma DeleteTwiceThroughRoute(table: UserTable, header: Option<string>, id: UserId, env: Env)
    requires Hooks(header, env, DeleteUserGuard) == Proceed && env.isUuid(id) && id in table
    ensures var first := DeleteUserRequest(table, header, id, env);
      && first.outcome == Sent(UserDeleted)
      && DeleteUserRequest(first.table, header, id, env) == Exchange(first.table, Sent(UserNotFound))
  {
  }

  /** An invalid update body is rejected with 400 even without an
      Authorization header: validation runs before the JWT hook. */
  lemma UpdateValidatesBeforeAuthenticating(table: UserTable, id: UserId, body: UpdateUserInput, env: Env)
    requires !env.isUuid(id) || ValidateUpdateUser(body, env.isEmail).None?
    ensures UpdateUserRequest(table, None, id, body, env) == Exchange(table, Sent(BadRequest))
  {
  }

  /** Update has no role gate: any admitted token, a student's included,
      reaches the handler, and may set any role. */
  lemma AnyAuthenticatedUserMayUpdate(table: UserTable, header: Option<string>, id: UserId, body: UpdateUserInput, env: Env)
    requires env.isUuid(id) && id in table && ValidateUpdateUser(body, env.isEmail).Some?
    requires Authenticate(header, env.secret, env.verify).Admit?
    ensures UpdateUserRequest(table, header, id, body, env).outcome == Sent(UserUpdated)
    ensures body.role == Some("manager") ==> UpdateUserRequest(table, header, id, body, env).table[id].role == Manager
  {
    var patch := ValidateUpdateUser(body, env.isEmail).value;
    UpdateChangesOnlyGivenFields(table, id, patch, env.hash);
  }

  /** A request without an Authorization header never reaches the user
      listing: it gets 401, and so does any header failing the JWT hook. */
  lemma ListingNeedsToken(table: UserTable, header: Option<string>, search: Option<string>, env: Env)
    requires Authenticate(header, env.secret, env.verify).Refuse?
    ensures GetUsersRequest(table, header, search, env) == Sent(Unauthorized)
  {
  }

  /** A user created through POST /users reads back through GET /users/:id
      (by any admitted token) with the name, email and role given, the role
      defaulting to student. */
  lemma CreateThenGetThroughRoutes(table: UserTable, body: CreateUserInput, newId: UserId,
                                   header: Option<string>, env: Env)
    requires newId !in table && env.isUuid(newId)
    requires ValidateCreateUser(body, env.isEmail).Some?
    requires Authenticate(header, env.secret, env.verify).Admit?
    ensures GetUserByIdRequest(CreateUserRequest(table, body, newId, env).table, header, newId, env) ==
      Sent(Reply(200, UserBody(PublicUser(newId, body.name, body.email,
        if body.role.None? || body.role == Some("student") then Student else Manager))))
  {
    CreateRoleDefault(body, env.isEmail);
  }

  /** A course id that is not in the table gets the bare string 404. */
  lemma UnknownCourseIsPlainText(table: CourseTable, id: CourseId, env: Env)
    requires env.isUuid(id) && id !in table
    ensures GetCourseByIdRequest(table, id, env) == Reply(404, PlainText("Course not found"))
  {
  }

  // -------------------------------------------------------------- serving

  /** POST /users on the store. */
  method ServeCreateUser(store: UserStore, body: CreateUserInput, newId: UserId, env: Env) returns (o: Outcome)
    requires newId !in store.rows
    modifies store
    ensures Exchange(store.rows, o) == CreateUserRequest(old(store.rows), body, newId, env)
  {
    var user := ValidateCreateUser(body, env.isEmail);
    if user.None? {
      return Sent(BadRequest);
    }
    var reply := store.Create(user.value, newId, env.hash);
    o := Sent(reply);
  }

  /** PUT /users/:id on the store. */
  method ServeUpdateUser(request: Request, store: UserStore, id: UserId, body: UpdateUserInput, env: Env) returns (o: Outcome)
    modifies request, store
    ensures Exchange(store.rows, o) == UpdateUserRequest(old(store.rows), request.authorization, id, body, env)
    ensures request.user ==
      if env.isUuid(id) && ValidateUpdateUser(body, env.isEmail).Some?
      then UserAfterHooks(request.authorization, env, UpdateUserGuard, old(request.user))
      else old(request.user)
  {
    var patch := ValidateUpdateUser(body, env.isEmail);
    if !env.isUuid(id) || patch.None? {
      return Sent(BadRequest);
    }
    var v := RunHooks(request, env.secret, env.verify, env.checkUserRole, UpdateUserGuard);
    if v.Halt? {
      return v.outcome;
    }
    var reply := store.Update(id, patch.value, env.hash);
    o := Sent(reply);
  }

  /** DELETE /users/:id on the store. */
  method ServeDeleteUser(request: Request, store: UserStore, id: UserId, env: Env) returns (o: Outcome)
    modifies request, store
    ensures Exchange(store.rows, o) == DeleteUserRequest(old(store.rows), request.authorization, id, env)
    ensures request.user ==
      if env.isUuid(id) then UserAfterHooks(request.authorization, env, DeleteUserGuard, old(request.user))
      else old(request.user)
  {
    if !env.isUuid(id) {
      return Sent(BadRequest);
    }
    var v := RunHooks(request, env.secret, env.verify, env.checkUserRole, DeleteUserGuard);
    if v.Halt? {
      return v.outcome;
    }
    var reply := store.Delete(id);
    o := Sent(reply);
  }

  /** GET /users/:id against the store; only the request changes. */
  method ServeGetUserById(request: Request, store: UserStore, id: UserId, env: Env) returns (o: Outcome)
    modifies request
    ensures o == GetUserByIdRequest(store.rows, request.authorization, id, env)
    ensures request.user ==
      if env.isUuid(id) then UserAfterHooks(request.authorization, env, GetUserByIdGuard, old(request.user))
      else old(request.user)
  {
    if !env.isUuid(id) {
      return Sent(BadRequest);
    }
    var v := RunHooks(request, env.secret, env.verify, env.checkUserRole, GetUserByIdGuard);
    if v.Halt? {
      return v.outcome;
    }
    o := Sent(GetUserById(store.rows, id));
  }

  /** GET /users against the store; only the request changes. */
  method ServeGetUsers(request: Request, store: UserStore, search: Option<string>, env: Env) returns (o: Outcome)
    modifies request
    ensures o == GetUsersRequest(store.rows, request.authorization, search, env)
    ensures request.user == UserAfterHooks(request.authorization, env, GetUsersGuard, old(request.user))
  {
    var v := RunHooks(request, env.secret, env.verify, env.checkUserRole, GetUsersGuard);
    if v.Halt? {
      return v.outcome;
    }
    o := Sent(Reply(200, UsersBody(GetUsers(store.rows, search))));
  }
}
