/** Replies as the handlers send them, and the outcome of a request: a
    reply, or an error thrown out of a hook. */
module Http {
  import opened Schema

  datatype Body =
    | ErrorBody(error: string)             // { error }
    | MessageBody(message: string)         // { message }
    | UserIdBody(userId: UserId)           // { userId }
    | UserBody(user: PublicUser)           // { user }
    | UsersBody(users: seq<PublicUser>)    // { users }
    | CourseBody(course: Course)           // { course }
    | CoursesBody(courses: seq<CourseSummary>)  // { courses }
    | PlainText(text: string)              // a bare string, not a JSON object
    | ValidationError                      // the schema validator's rejection

  datatype Reply = Reply(status: int, body: Body)

  /** What a request ends in: a reply sent, or an exception thrown by a
      hook or handler (the framework's error handler then answers it). */
  datatype Outcome = Sent(reply: Reply) | Thrown(message: string)

  const Unauthorized: Reply := Reply(401, ErrorBody("Unauthorized"))
  const BadRequest: Reply := Reply(400, ValidationError)
  const UserNotFound: Reply := Reply(404, MessageBody("User not found"))
  const UserUpdated: Reply := Reply(200, MessageBody("User updated successfully"))
  const UserDeleted: Reply := Reply(200, MessageBody("User deleted successfully"))
  const CourseNotFound: Reply := Reply(404, PlainText("Course not found"))
}
