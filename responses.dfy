/** The JSON envelope every route answers with: an HTTP status, a
    `success` flag, and either the data (with a `count` on the list
    routes) or an error message. A handler that passes an exception to
    `next` leaves the answer to the error middleware. */
module Responses {
  import opened ArrayOps
  import opened CourseSchema
  import opened EnrollmentSchema

  /** The `data` member of a successful answer. */
  datatype Payload =
    | EnrollmentData(record: Enrollment)
    | EnrollmentList(enrollments: seq<Enrollment>)
    | StatusData(isEnrolled: bool, enrollment: Option<Enrollment>)
    | CourseData(course: Course)
    | CourseList(courses: seq<Course>)
    | EmptyObject  // `data: {}`

  datatype Response =
    | Json(status: nat, success: bool, count: Option<nat>, data: Option<Payload>, error: Option<string>)
    | Forwarded  // `next(error)`: the error middleware answers

  /** `res.status(status).json({ success: true, data })`. */
  function Respond(status: nat, data: Payload): Response {
    Json(status, true, None, Some(data), None)
  }

  /** `res.status(status).json({ success: false, error })`. */
  function Reject(status: nat, error: string): Response {
    Json(status, false, None, None, Some(error))
  }

  /** A successful answer that carries a `count` beside its data. */
  function RespondCounted(status: nat, count: nat, data: Payload): Response {
    Json(status, true, Some(count), Some(data), None)
  }
}
