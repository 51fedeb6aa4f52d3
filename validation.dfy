/** The request shapes the routes declare and the rules the schema
    validator enforces before any hook or handler runs: length minimums,
    enumerations and defaults. Email and uuid syntax are abstract
    predicates (`Format`). */
module Validation {
  import opened Wrappers
  import opened Schema

  /** A format check the validator performs and this model does not spell
      out (email syntax, uuid syntax). */
  type Format = string -> bool

  const NameMinLength: nat := 2
  const PasswordMinLength: nat := 6

  /** `z.enum(['student', 'manager'])`. */
  function ParseRole(s: string): (r: Option<Role>)
    ensures r == Some(Student) <==> s == "student"
    ensures r == Some(Manager) <==> s == "manager"
  {
    if s == "student" then Some(Student)
    else if s == "manager" then Some(Manager)
    else None
  }

  /** The body of POST /users as sent. */
  datatype CreateUserInput = CreateUserInput(name: string, email: string, password: string, role: Option<string>)

  /** The body of POST /users after validation, with the role default applied. */
  datatype NewUser = NewUser(name: string, email: string, password: string, role: Role)

  /** create-user.ts:14-19: name of at least 2 characters, an email,
      password of at least 6 characters, role one of the two values and
      `student` when absent. */
  function ValidateCreateUser(b: CreateUserInput, isEmail: Format): (r: Option<NewUser>)
    ensures r.Some? <==>
      |b.name| >= NameMinLength && isEmail(b.email) && |b.password| >= PasswordMinLength
      && (b.role.Some? ==> b.role.value in {"student", "manager"})
    ensures r.Some? ==>
      r.value.name == b.name && r.value.email == b.email && r.value.password == b.password
  {
    var role := if b.role.None? then Some(Student) else ParseRole(b.role.value);
    if |b.name| < NameMinLength || !isEmail(b.email) || |b.password| < PasswordMinLength || role.None? then None
    else Some(NewUser(b.name, b.email, b.password, role.value))
  }

  /** An omitted role becomes `student`; a given one is kept. */
  lemma CreateRoleDefault(b: CreateUserInput, isEmail: Format)
    requires ValidateCreateUser(b, isEmail).Some?
    ensures b.role.None? ==> ValidateCreateUser(b, isEmail).value.role == Student
    ensures b.role == Some("manager") ==> ValidateCreateUser(b, isEmail).value.role == Manager
    ensures b.role == Some("student") ==> ValidateCreateUser(b, isEmail).value.role == Student
  {
  }

  /** The body of PUT /users/:id, both as sent and after validation: any
      subset of the four columns. */
  datatype UpdateUserInput = UpdateUserInput(name: Option<string>, email: Option<string>, password: Option<string>, role: Option<string>)
  datatype UserPatch = UserPatch(name: Option<string>, email: Option<string>, password: Option<string>, role: Option<Role>)

  /** update-user.ts:20-25: each field optional, and when present held to
      the same rules as on creation. */
  function ValidateUpdateUser(b: UpdateUserInput, isEmail: Format): (r: Option<UserPatch>)
    ensures r.Some? <==>
      (b.name.Some? ==> |b.name.value| >= NameMinLength)
      && (b.email.Some? ==> isEmail(b.email.value))
      && (b.password.Some? ==> |b.password.value| >= PasswordMinLength)
      && (b.role.Some? ==> b.role.value in {"student", "manager"})
    ensures r.Some? ==>
      r.value.name == b.name && r.value.email == b.email && r.value.password == b.password
      && r.value.role.Some? == b.role.Some?
    ensures r.Some? && b.role.Some? ==> r.value.role == ParseRole(b.role.value)
  {
    var role := if b.role.None? then Some(None) else
      match ParseRole(b.role.value)
      case Some(x) => Some(Some(x))
      case None => None;
    if (b.name.Some? && |b.name.value| < NameMinLength)
      || (b.email.Some? && !isEmail(b.email.value))
      || (b.password.Some? && |b.password.value| < PasswordMinLength)
      || role.None?
    then None
    else Some(UserPatch(b.name, b.email, b.password, role.value))
  }

  /** Every column the course listing may be ordered by. */
  datatype Column = ById | ByTitle

  /** The query of GET /courses as sent (`page` already coerced to a number). */
  datatype CoursesQueryInput = CoursesQueryInput(search: Option<string>, orderBy: Option<string>, page: Option<int>)
  datatype CoursesQuery = CoursesQuery(search: Option<string>, orderBy: Column, page: int)

  /** get-courses.ts:14-18: search optional, orderBy one of `id` and
      `title` with default `id`, page with default 1. */
  function ValidateCoursesQuery(q: CoursesQueryInput): (r: Option<CoursesQuery>)
    ensures r.Some? <==> (q.orderBy.Some? ==> q.orderBy.value in {"id", "title"})
    ensures r.Some? ==> r.value.search == q.search && r.value.page == q.page.GetOr(1)
    ensures r.Some? ==> (r.value.orderBy == ByTitle <==> q.orderBy == Some("title"))
  {
    var orderBy :=
      if q.orderBy.None? || q.orderBy.value == "id" then Some(ById)
      else if q.orderBy.value == "title" then Some(ByTitle)
      else None;
    if orderBy.None? then None
    else Some(CoursesQuery(q.search, orderBy.value, q.page.GetOr(1)))
  }
}
