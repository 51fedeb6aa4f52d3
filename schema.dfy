/** The two tables and the shapes the routes return. A table is a map from
    id to row; the id is the key and is not repeated inside the row. */
module Schema {
  import opened Wrappers

  datatype Role = Student | Manager

  type UserId = string
  type CourseId = string

  /** A row of the users table; `password` holds the hash, never the
      plaintext. */
  datatype UserRow = UserRow(name: string, email: string, password: string, role: Role)

  /** The columns the user routes select: every column but the password. */
  datatype PublicUser = PublicUser(id: UserId, name: string, email: string, role: Role)

  /** A row of the courses table; the description column is nullable. */
  datatype CourseRow = CourseRow(title: string, description: Option<string>)

  /** A course as get-course-by-id returns it. */
  datatype Course = Course(id: CourseId, title: string, description: Option<string>)

  /** A course as the course listing serialises it: id and title. */
  datatype CourseSummary = CourseSummary(id: CourseId, title: string)

  type UserTable = map<UserId, UserRow>
  type CourseTable = map<CourseId, CourseRow>

  /** `select({ id, name, email, role })` on one row. */
  function Project(id: UserId, row: UserRow): PublicUser
  {
    PublicUser(id, row.name, row.email, row.role)
  }
}
