/** The enrollment record and the constraints its schema declares: the
    status enumeration, the progress bounds, the required and trimmed
    student id, and the unique index on the (course, student) pair. */
module EnrollmentSchema {
  import opened CourseSchema

  /** The three values the `status` enumeration admits; a stored record
      can hold no other. */
  datatype Status = Active | Completed | Dropped

  /** What a record's `courseId` field holds: a course id (what the schema
      declares, and what the database stores), or a whole course record
      embedded in its place (what the in-memory store writes). */
  datatype CourseRef = CourseKey(key: string) | Embedded(course: Course)

  /** A stored enrollment. `id` and `enrollmentDate` come from the clock. */
  datatype Enrollment = Enrollment(
    id: nat,
    courseId: CourseRef,
    studentId: string,
    enrollmentDate: nat,
    status: Status,
    progress: int)

  const MinProgress := 0
  const MaxProgress := 100

  /** The id of the course a reference designates, whichever form it has. */
  function CourseIdentity(r: CourseRef): string {
    match r
    case CourseKey(k) => k
    case Embedded(c) => c.id
  }

  /** A record the schema accepts: a present, trimmed student id and a
      progress within [0, 100]. The course reference is always present and
      the status always one of the enumeration by construction. */
  predicate ValidEnrollment(e: Enrollment) {
    && |e.studentId| > 0 && IsTrimmed(e.studentId)
    && MinProgress <= e.progress <= MaxProgress
  }

  /** What a create with only the course and the student stores: the
      student id trimmed, the status and the progress at their defaults,
      and the enrollment date at the current time. */
  function CreateEnrollment(id: nat, courseId: CourseRef, studentId: string, now: nat): (e: Enrollment)
    ensures e.status == Active && e.progress == 0 && e.enrollmentDate == now
    ensures e.courseId == courseId && e.studentId == Trim(studentId)
    ensures |Trim(studentId)| > 0 ==> ValidEnrollment(e)
  {
    Enrollment(id, courseId, Trim(studentId), now, Active, 0)
  }

  /** The record holds the (course, student) slot of the unique index. */
  predicate Occupies(e: Enrollment, courseId: string, studentId: string) {
    CourseIdentity(e.courseId) == courseId && e.studentId == studentId
  }

  /** Two records occupy the same slot of the unique index. */
  predicate SamePair(a: Enrollment, b: Enrollment) {
    Occupies(b, CourseIdentity(a.courseId), a.studentId)
  }

  /** The unique compound index: no two records share a (course, student)
      pair, whatever their status. */
  ghost predicate UniquePairs(s: seq<Enrollment>) {
    forall i, j :: 0 <= i < j < |s| ==> !SamePair(s[i], s[j])
  }

  /** A record whose pair is taken by any record, dropped ones included,
      cannot be added without breaking the index; one whose pair is free can. */
  lemma InsertRespectsIndexIff(s: seq<Enrollment>, e: Enrollment)
    requires UniquePairs(s)
    ensures UniquePairs(s + [e]) <==> forall i :: 0 <= i < |s| ==> !SamePair(s[i], e)
  {
    if exists i :: 0 <= i < |s| && SamePair(s[i], e) {
      var i :| 0 <= i < |s| && SamePair(s[i], e);
      assert (s + [e])[i] == s[i] && (s + [e])[|s|] == e;
    }
  }

  /** Changing the status or the progress of one record keeps the index. */
  lemma UpdateInPlaceKeepsIndex(s: seq<Enrollment>, k: nat, e: Enrollment)
    requires UniquePairs(s) && k < |s|
    requires e.courseId == s[k].courseId && e.studentId == s[k].studentId
    ensures UniquePairs(s[k := e])
  {
  }
}
