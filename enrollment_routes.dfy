/** The five enrollment handlers: the input guards, the choice between the
    in-memory store (no database connection) and the database, and the
    mapping of each outcome to a status and a JSON envelope. Every handler
    acts for the one fixed demo student.

    The database is modelled abstractly, as a course list and an
    enrollment list whose queries are the filters the handlers write
    (same course, same student, status other than dropped), and whose
    unique index on the (course, student) pair turns a create that would
    break it into an exception passed to the error middleware. */
module EnrollmentRoutes {
  import opened ArrayOps
  import opened CourseSchema
  import opened EnrollmentSchema
  import opened MockData
  import opened Responses

  const DummyStudentId := "chaitanya0205"
  const CourseIdRequired := "Course ID is required"
  const ProgressOutOfRange := "Progress must be between 0 and 100"
  const DuplicateEnrollment := "You are already enrolled in this course"

  /** `!courseId` for the value the request body holds: absent or empty. */
  predicate Falsy(courseId: Option<string>) {
    courseId.None? || courseId.value == ""
  }

  /** The range guard of the progress route. */
  predicate ProgressRejected(progress: int) {
    progress < 0 || progress > 100
  }

  /** The database's two collections. */
  class Database {
    var courses: seq<Course>
    var enrollments: seq<Enrollment>

    constructor(courses: seq<Course>, enrollments: seq<Enrollment>)
      ensures this.courses == courses && this.enrollments == enrollments
    {
      this.courses := courses;
      this.enrollments := enrollments;
    }
  }

  /** The query `{ courseId, studentId, status: { $ne: 'dropped' } }`. */
  predicate Live(e: Enrollment, courseId: string, studentId: string) {
    Occupies(e, courseId, studentId) && e.status != Dropped
  }

  ghost predicate FirstLive(s: seq<Enrollment>, k: int, courseId: string) {
    && 0 <= k < |s| && Live(s[k], courseId, DummyStudentId)
    && forall j :: 0 <= j < k ==> !Live(s[j], courseId, DummyStudentId)
  }

  /** The answer of a database write and the enrollment list after it. */
  datatype DbReply = DbReply(response: Response, store: seq<Enrollment>)

  /** The student id needs no trimming, so a created record keeps it. */
  lemma DummyStudentIdTrimmed()
    ensures Trim(DummyStudentId) == DummyStudentId
    ensures ValidEnrollment(CreateEnrollment(0, CourseKey(""), DummyStudentId, 0))
  {
    TrimFixesTrimmed(DummyStudentId);
  }

  /** The database list of GET /me: the student's records that are not
      dropped, in stored order. */
  function DbMine(s: seq<Enrollment>): (r: seq<Enrollment>)
    ensures forall i :: 0 <= i < |r| ==> r[i].studentId == DummyStudentId && r[i].status != Dropped
    ensures forall i :: 0 <= i < |s| && s[i].studentId == DummyStudentId && s[i].status != Dropped ==> s[i] in r
    ensures forall x :: x in r ==> x in s
    ensures IsSubsequence(r, s)
    ensures forall e :: multiset(r)[e] ==
              (if e.studentId == DummyStudentId && e.status != Dropped then multiset(s)[e] else 0)
  {
    FilterCounts(s, (e: Enrollment) => e.studentId == DummyStudentId && e.status != Dropped);
    Filter(s, (e: Enrollment) => e.studentId == DummyStudentId && e.status != Dropped)
  }

  /** The database branch of POST: 404 for an unknown course, 400 while a
      live record holds the pair, an exception for the middleware when only
      a dropped record holds it (the unique index covers every status), and
      otherwise 201 with one new active record appended, answered with its
      course filled in. */
  function DbEnroll(courses: seq<Course>, s: seq<Enrollment>, courseId: string, now: nat): (out: DbReply)
    ensures CourseById(courses, courseId).None? ==> out == DbReply(Reject(404, CourseNotFound), s)
    ensures out.response == Reject(400, DuplicateEnrollment) <==>
              CourseById(courses, courseId).Some? && exists i :: 0 <= i < |s| && Live(s[i], courseId, DummyStudentId)
    ensures out.response == Forwarded <==>
              && CourseById(courses, courseId).Some?
              && (forall i :: 0 <= i < |s| ==> !Live(s[i], courseId, DummyStudentId))
              && (exists i :: 0 <= i < |s| && Occupies(s[i], courseId, DummyStudentId))
    ensures out.response.Json? && out.response.status == 201 <==>
              CourseById(courses, courseId).Some? && forall i :: 0 <= i < |s| ==> !Occupies(s[i], courseId, DummyStudentId)
    ensures out.response.Json? && out.response.status == 201 ==>
              var e := CreateEnrollment(now, CourseKey(courseId), DummyStudentId, now);
              && out.store == s + [e]
              && out.response == Respond(201, EnrollmentData(e.(courseId := Embedded(CourseById(courses, courseId).value))))
    ensures !(out.response.Json? && out.response.status == 201) ==> out.store == s
  {
    match CourseById(courses, courseId)
    case None => DbReply(Reject(404, CourseNotFound), s)
    case Some(course) =>
      if Find(s, (e: Enrollment) => Live(e, courseId, DummyStudentId)).Some? then
        DbReply(Reject(400, DuplicateEnrollment), s)
      else if Find(s, (e: Enrollment) => Occupies(e, courseId, DummyStudentId)).Some? then
        DbReply(Forwarded, s)
      else
        var e := CreateEnrollment(now, CourseKey(courseId), DummyStudentId, now);
        DbReply(Respond(201, EnrollmentData(e.(courseId := Embedded(course)))), s + [e])
  }

  /** The database branch of DELETE: 404 without a live record; otherwise
      the first live record is marked dropped, kept, and 200 answers `{}`. */
  function DbUnenroll(s: seq<Enrollment>, courseId: string): (out: DbReply)
    ensures (forall i :: 0 <= i < |s| ==> !Live(s[i], courseId, DummyStudentId)) ==>
              out == DbReply(Reject(404, EnrollmentNotFound), s)
    ensures (exists i :: 0 <= i < |s| && Live(s[i], courseId, DummyStudentId)) ==>
              && out.response == Respond(200, EmptyObject)
              && exists k :: FirstLive(s, k, courseId) && out.store == s[k := s[k].(status := Dropped)]
  {
    var k := FindIndex(s, (e: Enrollment) => Live(e, courseId, DummyStudentId));
    if k == -1 then DbReply(Reject(404, EnrollmentNotFound), s)
    else DbReply(Respond(200, EmptyObject), s[k := s[k].(status := Dropped)])
  }

  /** The database branch of PUT progress: 404 without a live record;
      otherwise the progress of the first live record is overwritten and
      200 answers with the updated record. */
  function DbProgress(s: seq<Enrollment>, courseId: string, progress: int): (out: DbReply)
    ensures (forall i :: 0 <= i < |s| ==> !Live(s[i], courseId, DummyStudentId)) ==>
              out == DbReply(Reject(404, EnrollmentNotFound), s)
    ensures (exists i :: 0 <= i < |s| && Live(s[i], courseId, DummyStudentId)) ==>
              exists k :: && FirstLive(s, k, courseId)
                          && out.store == s[k := s[k].(progress := progress)]
                          && out.response == Respond(200, EnrollmentData(out.store[k]))
  {
    var k := FindIndex(s, (e: Enrollment) => Live(e, courseId, DummyStudentId));
    if k == -1 then DbReply(Reject(404, EnrollmentNotFound), s)
    else
      var after := s[k := s[k].(progress := progress)];
      DbReply(Respond(200, EnrollmentData(after[k])), after)
  }

  /** The database branch of GET status: enrolled exactly when a live
      record exists, and then the first one. */
  function DbStatus(s: seq<Enrollment>, courseId: string): (r: StatusReply)
    ensures r.isEnrolled <==> exists i :: 0 <= i < |s| && Live(s[i], courseId, DummyStudentId)
    ensures r.isEnrolled <==> r.enrollment.Some?
    ensures r.enrollment.Some? ==> exists k :: FirstLive(s, k, courseId) && s[k] == r.enrollment.value
  {
    var found := Find(s, (e: Enrollment) => Live(e, courseId, DummyStudentId));
    StatusReply(found.Some?, found)
  }

  /** What a handler answers, with the in-memory list and the database
      list after it. */
  datatype Handled = Handled(response: Response, mock: seq<Enrollment>, db: seq<Enrollment>)

  /** The answer to a store outcome in the in-memory branch: the thrown
      message with the given error status, or the record with `status`. */
  function MockAnswer(out: Outcome, status: nat, errorStatus: nat, data: Payload): Response {
    if out.result.Failure? then Reject(errorStatus, out.result.error) else Respond(status, data)
  }

  /** GET /me: always 200, with `count` the length of the list. Without a
      connection the list is every in-memory record of the student,
      dropped ones included; with one, the database's live records. */
  function Mine(mock: seq<Enrollment>, db: seq<Enrollment>, connected: bool): (r: Response)
    ensures r.Json? && r.status == 200 && r.success && r.error.None?
    ensures r.data.Some? && r.data.value.EnrollmentList?
    ensures r.count == Some(|r.data.value.enrollments|)
    ensures !connected ==> r.data.value.enrollments == EnrollmentsOf(mock, DummyStudentId)
    ensures connected ==> r.data.value.enrollments == DbMine(db)
  {
    var list := if connected then DbMine(db) else EnrollmentsOf(mock, DummyStudentId);
    RespondCounted(200, |list|, EnrollmentList(list))
  }

  /** POST: a falsy course id is refused with 400 before either store is
      read; without a connection the in-memory `enroll` decides, a thrown
      error becoming 400 with its message and success 201 with the record;
      with one the database branch decides. A refusal changes nothing, and
      each branch leaves the other store alone. */
  function Post(catalog: seq<Course>, cmp: Comparison, mock: seq<Enrollment>, courses: seq<Course>, db: seq<Enrollment>,
                connected: bool, courseId: Option<string>, now: nat): (h: Handled)
    ensures Falsy(courseId) ==> h == Handled(Reject(400, CourseIdRequired), mock, db)
    ensures !Falsy(courseId) && !connected ==>
              var out := EnrollStep(catalog, mock, courseId.value, DummyStudentId, now, cmp);
              && h.mock == out.store && h.db == db
              && (out.result.Failure? ==> h.response == Reject(400, out.result.error))
              && (out.result.Success? ==> h.response == Respond(201, EnrollmentData(out.result.value)))
    ensures !Falsy(courseId) && connected ==>
              h.mock == mock && DbReply(h.response, h.db) == DbEnroll(courses, db, courseId.value, now)
    ensures h.response.Json? && !h.response.success ==> h.mock == mock && h.db == db
  {
    if Falsy(courseId) then Handled(Reject(400, CourseIdRequired), mock, db)
    else if !connected then
      var out := EnrollStep(catalog, mock, courseId.value, DummyStudentId, now, cmp);
      Handled(MockAnswer(out, 201, 400, if out.result.Success? then EnrollmentData(out.result.value) else EmptyObject), out.store, db)
    else
      var reply := DbEnroll(courses, db, courseId.value, now);
      Handled(reply.response, mock, reply.store)
  }

  /** DELETE: without a connection the in-memory `unenroll` decides, a
      thrown error becoming 404 with its message and success 200 with `{}`;
      with one the database branch decides. */
  function Delete(cmp: Comparison, mock: seq<Enrollment>, db: seq<Enrollment>, connected: bool, courseId: string): (h: Handled)
    ensures !connected ==>
              var out := UnenrollStep(mock, courseId, DummyStudentId, cmp);
              && h.mock == out.store && h.db == db
              && (out.result.Failure? ==> h.response == Reject(404, out.result.error))
              && (out.result.Success? ==> h.response == Respond(200, EmptyObject))
    ensures connected ==> h.mock == mock && DbReply(h.response, h.db) == DbUnenroll(db, courseId)
    ensures h.response.Json? && !h.response.success ==> h.mock == mock && h.db == db
  {
    if !connected then
      var out := UnenrollStep(mock, courseId, DummyStudentId, cmp);
      Handled(MockAnswer(out, 200, 404, EmptyObject), out.store, db)
    else
      var reply := DbUnenroll(db, courseId);
      Handled(reply.response, mock, reply.store)
  }

  /** GET status: always 200, with `isEnrolled` true exactly when a record
      was found (an active in-memory one, or a live database one), and the
      record or null beside it. */
  function Status(cmp: Comparison, mock: seq<Enrollment>, db: seq<Enrollment>, connected: bool, courseId: string): (r: Response)
    ensures r.Json? && r.status == 200 && r.success && r.data.Some? && r.data.value.StatusData?
    ensures r.data.value.isEnrolled <==> r.data.value.enrollment.Some?
    ensures !connected ==>
              (r.data.value.isEnrolled <==> exists i :: 0 <= i < |mock| && MatchesActive(mock[i], courseId, DummyStudentId, cmp))
    ensures connected ==>
              (r.data.value.isEnrolled <==> exists i :: 0 <= i < |db| && Live(db[i], courseId, DummyStudentId))
    ensures connected && r.data.value.isEnrolled ==>
              exists k :: FirstLive(db, k, courseId) && db[k] == r.data.value.enrollment.value
    ensures !connected ==>
              var st := EnrollmentStatus(mock, courseId, DummyStudentId, cmp);
              r.data.value == StatusData(st.isEnrolled, st.enrollment)
  {
    var reply := if connected then DbStatus(db, courseId) else EnrollmentStatus(mock, courseId, DummyStudentId, cmp);
    Respond(200, StatusData(reply.isEnrolled, reply.enrollment))
  }

  /** PUT progress: a progress outside [0, 100] is refused with 400 before
      either store is read (0 and 100 pass); then without a connection the
      in-memory `updateProgress` decides, a thrown error becoming 404 and
      success 200 with the record; with one the database branch decides. */
  function Put(cmp: Comparison, mock: seq<Enrollment>, db: seq<Enrollment>, connected: bool, courseId: string, progress: int): (h: Handled)
    ensures ProgressRejected(progress) <==> progress < MinProgress || progress > MaxProgress
    ensures ProgressRejected(progress) ==> h == Handled(Reject(400, ProgressOutOfRange), mock, db)
    ensures !ProgressRejected(progress) && !connected ==>
              var out := UpdateProgressStep(mock, courseId, DummyStudentId, progress, cmp);
              && h.mock == out.store && h.db == db
              && (out.result.Failure? ==> h.response == Reject(404, out.result.error))
              && (out.result.Success? ==> h.response == Respond(200, EnrollmentData(out.result.value)))
    ensures !ProgressRejected(progress) && connected ==>
              h.mock == mock && DbReply(h.response, h.db) == DbProgress(db, courseId, progress)
    ensures h.response.Json? && !h.response.success ==> h.mock == mock && h.db == db
  {
    if ProgressRejected(progress) then Handled(Reject(400, ProgressOutOfRange), mock, db)
    else if !connected then
      var out := UpdateProgressStep(mock, courseId, DummyStudentId, progress, cmp);
      Handled(MockAnswer(out, 200, 404, if out.result.Success? then EnrollmentData(out.result.value) else EmptyObject), out.store, db)
    else
      var reply := DbProgress(db, courseId, progress);
      Handled(reply.response, mock, reply.store)
  }

  // ---------------------------------------------------------------------
  // Properties of the handlers

  ghost predicate ProgressInRange(s: seq<Enrollment>) {
    forall i :: 0 <= i < |s| ==> MinProgress <= s[i].progress <= MaxProgress
  }

  /** The store's `updateProgress` has no range check of its own, but the
      route's guard keeps every stored progress within the schema's bounds,
      in both stores. */
  lemma PutKeepsProgressInRange(cmp: Comparison, mock: seq<Enrollment>, db: seq<Enrollment>, connected: bool, courseId: string, progress: int)
    requires ProgressInRange(mock) && ProgressInRange(db)
    ensures ProgressInRange(Put(cmp, mock, db, connected, courseId, progress).mock)
    ensures ProgressInRange(Put(cmp, mock, db, connected, courseId, progress).db)
  {
    var h := Put(cmp, mock, db, connected, courseId, progress);
    if !ProgressRejected(progress) {
      if !connected {
        var out := UpdateProgressStep(mock, courseId, DummyStudentId, progress, cmp);
        if out.result.Success? {
          var k :| FirstActiveMatch(mock, k, courseId, DummyStudentId, cmp)
                   && out.store == mock[k := mock[k].(progress := progress)]
                   && out.result.value == out.store[k];
          assert h.mock == mock[k := mock[k].(progress := progress)];
        }
      } else if exists i :: 0 <= i < |db| && Live(db[i], courseId, DummyStudentId) {
        var k :| FirstLive(db, k, courseId)
                 && DbProgress(db, courseId, progress).store == db[k := db[k].(progress := progress)]
                 && DbProgress(db, courseId, progress).response == Respond(200, EnrollmentData(DbProgress(db, courseId, progress).store[k]));
        assert h.db == db[k := db[k].(progress := progress)];
      }
    }
  }

  /** A database enroll keeps the unique index on (course, student): it
      appends only when no record, dropped or not, holds the pair. */
  lemma DbEnrollKeepsIndex(courses: seq<Course>, db: seq<Enrollment>, courseId: string, now: nat)
    requires UniquePairs(db)
    ensures UniquePairs(DbEnroll(courses, db, courseId, now).store)
  {
    var out := DbEnroll(courses, db, courseId, now);
    if out.response.Json? && out.response.status == 201 {
      DbEnrollFresh(courses, db, courseId, now);
      var e := CreateEnrollment(now, CourseKey(courseId), DummyStudentId, now);
      forall i | 0 <= i < |db| ensures !SamePair(db[i], e) {
        assert !Occupies(db[i], courseId, DummyStudentId);
      }
      InsertRespectsIndexIff(db, e);
    }
  }


  /** A database unenroll keeps the unique index. */
  lemma DbUnenrollKeepsIndex(db: seq<Enrollment>, courseId: string)
    requires UniquePairs(db)
    ensures UniquePairs(DbUnenroll(db, courseId).store)
  {
    if exists i :: 0 <= i < |db| && Live(db[i], courseId, DummyStudentId) {
      var k :| FirstLive(db, k, courseId) && DbUnenroll(db, courseId).store == db[k := db[k].(status := Dropped)];
      assert FirstLive(db, k, courseId);
      UpdateInPlaceKeepsIndex(db, k, db[k].(status := Dropped));
    }
  }

  /** A database progress update keeps the unique index. */
  lemma DbProgressKeepsIndex(db: seq<Enrollment>, courseId: string, progress: int)
    requires UniquePairs(db)
    ensures UniquePairs(DbProgress(db, courseId, progress).store)
  {
    if exists i :: 0 <= i < |db| && Live(db[i], courseId, DummyStudentId) {
      var k :| FirstLive(db, k, courseId) && DbProgress(db, courseId, progress).store == db[k := db[k].(progress := progress)];
      assert FirstLive(db, k, courseId);
      UpdateInPlaceKeepsIndex(db, k, db[k].(progress := progress));
    }
  }

  /** Under the unique index, a record holding a pair is its only holder. */
  lemma OnlyHolder(db: seq<Enrollment>, k: int, courseId: string)
    requires UniquePairs(db) && 0 <= k < |db| && Occupies(db[k], courseId, DummyStudentId)
    ensures forall j :: 0 <= j < |db| && j != k ==> !Occupies(db[j], courseId, DummyStudentId)
  {
    forall j | 0 <= j < |db| && j != k
      ensures !Occupies(db[j], courseId, DummyStudentId)
    {
      if j < k {
        assert !SamePair(db[j], db[k]);
      } else {
        assert !SamePair(db[k], db[j]);
      }
    }
  }

  /** When the only record holding a pair is dropped, the student's list
      shows no record of that course. */
  lemma DroppedHolderHidden(s: seq<Enrollment>, k: int, courseId: string)
    requires 0 <= k < |s| && s[k].status == Dropped
    requires forall j :: 0 <= j < |s| && j != k ==> !Occupies(s[j], courseId, DummyStudentId)
    ensures forall i :: 0 <= i < |DbMine(s)| ==> CourseIdentity(DbMine(s)[i].courseId) != courseId
  {
    var mine := DbMine(s);
    forall i | 0 <= i < |mine| ensures CourseIdentity(mine[i].courseId) != courseId {
      var j :| 0 <= j < |s| && s[j] == mine[i];
    }
  }

  /** After a successful database unenroll the course no longer appears in
      the student's list, while its record stays in the store, dropped. */
  lemma DbUnenrollHidesCourse(cmp: Comparison, mock: seq<Enrollment>, db: seq<Enrollment>, courseId: string)
    requires UniquePairs(db)
    requires Delete(cmp, mock, db, true, courseId).response == Respond(200, EmptyObject)
    ensures var after := Delete(cmp, mock, db, true, courseId).db;
            && |after| == |db|
            && (exists k :: 0 <= k < |after| && Occupies(after[k], courseId, DummyStudentId) && after[k].status == Dropped)
            && forall i :: 0 <= i < |DbMine(after)| ==> CourseIdentity(DbMine(after)[i].courseId) != courseId
  {
    var k := FindIndex(db, (e: Enrollment) => Live(e, courseId, DummyStudentId));
    var after := db[k := db[k].(status := Dropped)];
    assert DbUnenroll(db, courseId).store == after;
    OnlyHolder(db, k, courseId);
    DroppedHolderHidden(after, k, courseId);
    assert Occupies(after[k], courseId, DummyStudentId);
  }

  /** A database enroll in a course no record holds appends one live
      record after the existing ones. */
  lemma DbEnrollFresh(courses: seq<Course>, db: seq<Enrollment>, courseId: string, now: nat)
    requires CourseById(courses, courseId).Some?
    requires forall i :: 0 <= i < |db| ==> !Occupies(db[i], courseId, DummyStudentId)
    ensures DbEnroll(courses, db, courseId, now).response.Json?
    ensures DbEnroll(courses, db, courseId, now).response.status == 201
    ensures DbEnroll(courses, db, courseId, now).store == db + [CreateEnrollment(now, CourseKey(courseId), DummyStudentId, now)]
    ensures Live(CreateEnrollment(now, CourseKey(courseId), DummyStudentId, now), courseId, DummyStudentId)
  {
    DemoRecordLive(courseId, now);
  }

  /** The record a database enroll creates is live for its course. */
  lemma DemoRecordLive(courseId: string, now: nat)
    ensures Live(CreateEnrollment(now, CourseKey(courseId), DummyStudentId, now), courseId, DummyStudentId)
  {
    DummyStudentIdTrimmed();
  }

  /** A database unenroll when the last record is the only one holding the
      pair, and it is live: that record becomes dropped. */
  lemma DbUnenrollLast(s: seq<Enrollment>, courseId: string)
    requires |s| > 0 && Live(s[|s| - 1], courseId, DummyStudentId)
    requires forall i :: 0 <= i < |s| - 1 ==> !Occupies(s[i], courseId, DummyStudentId)
    ensures DbUnenroll(s, courseId) == DbReply(Respond(200, EmptyObject), s[|s| - 1 := s[|s| - 1].(status := Dropped)])
  {
    var k := FindIndex(s, (e: Enrollment) => Live(e, courseId, DummyStudentId));
    assert Occupies(s[k], courseId, DummyStudentId);
  }

  /** With a database, a second enroll in the same course is refused with
      400 and changes nothing. */
  lemma DbSecondEnrollRefused(cmp: Comparison, mock: seq<Enrollment>, courses: seq<Course>, db: seq<Enrollment>, courseId: string, t1: nat, t2: nat)
    requires courseId != ""
    requires CourseById(courses, courseId).Some?
    requires forall i :: 0 <= i < |db| ==> !Occupies(db[i], courseId, DummyStudentId)
    ensures var first := Post([], cmp, mock, courses, db, true, Some(courseId), t1);
            var second := Post([], cmp, first.mock, courses, first.db, true, Some(courseId), t2);
            && first.response.Json? && first.response.status == 201
            && second == Handled(Reject(400, DuplicateEnrollment), first.mock, first.db)
  {
    DbEnrollFresh(courses, db, courseId, t1);
    var first := DbEnroll(courses, db, courseId, t1);
    assert Live(first.store[|db|], courseId, DummyStudentId);
  }

  /** With a database, enrolling again after an unenroll does not create a
      record: no live record blocks it, but the dropped one still holds the
      unique index's slot, so the create fails and the exception goes to the
      error middleware. */
  lemma DbReenrollAfterDropForwarded(cmp: Comparison, mock: seq<Enrollment>, courses: seq<Course>, db: seq<Enrollment>, courseId: string, t1: nat, t2: nat)
    requires courseId != ""
    requires CourseById(courses, courseId).Some?
    requires forall i :: 0 <= i < |db| ==> !Occupies(db[i], courseId, DummyStudentId)
    ensures var first := Post([], cmp, mock, courses, db, true, Some(courseId), t1);
            var dropped := Delete(cmp, first.mock, first.db, true, courseId);
            var again := Post([], cmp, dropped.mock, courses, dropped.db, true, Some(courseId), t2);
            && dropped.response == Respond(200, EmptyObject)
            && again == Handled(Forwarded, dropped.mock, dropped.db)
  {
    DbEnrollFresh(courses, db, courseId, t1);
    var first := DbEnroll(courses, db, courseId, t1).store;
    DbUnenrollLast(first, courseId);
    var dropped := first[|db| := first[|db|].(status := Dropped)];
    assert Occupies(dropped[|db|], courseId, DummyStudentId);
    forall i | 0 <= i < |dropped| ensures !Live(dropped[i], courseId, DummyStudentId) {
      if i < |db| {
        assert dropped[i] == db[i];
      }
    }
  }

  /** Without a database, as written: two POSTs for one course both answer
      201, and DELETE, PUT progress and GET status never find the record. */
  lemma MockRoutesAsWritten(catalog: seq<Course>, mock: seq<Enrollment>, db: seq<Enrollment>, courseId: string, t1: nat, t2: nat, progress: int)
    requires AllEmbedded(mock)
    requires courseId != "" && CourseById(catalog, courseId).Some?
    requires !ProgressRejected(progress)
    ensures var first := Post(catalog, StrictEquals, mock, [], db, false, Some(courseId), t1);
            var second := Post(catalog, StrictEquals, first.mock, [], db, false, Some(courseId), t2);
            && first.response.Json? && first.response.status == 201
            && second.response.Json? && second.response.status == 201
            && |second.mock| == |mock| + 2
    ensures Delete(StrictEquals, mock, db, false, courseId) == Handled(Reject(404, EnrollmentNotFound), mock, db)
    ensures Put(StrictEquals, mock, db, false, courseId, progress) == Handled(Reject(404, EnrollmentNotFound), mock, db)
    ensures Status(StrictEquals, mock, db, false, courseId) == Respond(200, StatusData(false, None))
  {
    AsWrittenLookupsNeverMatch(catalog, mock, courseId, DummyStudentId, t1, progress);
    var first := Post(catalog, StrictEquals, mock, [], db, false, Some(courseId), t1);
    AsWrittenKeepsEmbedded(catalog, mock, courseId, DummyStudentId, t1, progress);
    AsWrittenLookupsNeverMatch(catalog, first.mock, courseId, DummyStudentId, t2, progress);
  }

  /** Without a database, with the corrected comparison: a POST for a
      course the student holds no record of answers 201, a second one 400
      'Already enrolled in this course'; the status then reports the new
      record, and a DELETE answers 200 `{}`. */
  lemma MockRoutesIntended(catalog: seq<Course>, mock: seq<Enrollment>, db: seq<Enrollment>, courseId: string, t1: nat, t2: nat)
    requires courseId != "" && CourseById(catalog, courseId).Some?
    requires forall i :: 0 <= i < |mock| ==> !MatchesPair(mock[i], courseId, DummyStudentId, ByCourseId)
    ensures var first := Post(catalog, ByCourseId, mock, [], db, false, Some(courseId), t1);
            && first.response.Json? && first.response.status == 201
            && Post(catalog, ByCourseId, first.mock, [], db, false, Some(courseId), t2)
               == Handled(Reject(400, AlreadyEnrolled), first.mock, db)
            && Status(ByCourseId, first.mock, db, false, courseId).data.value.isEnrolled
            && Delete(ByCourseId, first.mock, db, false, courseId).response == Respond(200, EmptyObject)
  {
    var first := Post(catalog, ByCourseId, mock, [], db, false, Some(courseId), t1);
    assert MatchesActive(first.mock[|mock|], courseId, DummyStudentId, ByCourseId);
  }

  // ---------------------------------------------------------------------
  // The handlers

  /** GET /api/enrollments/me. */
  method GetMyEnrollments(mock: MockStore, db: Database, connected: bool) returns (r: Response)
    ensures r == Mine(mock.enrollments, db.enrollments, connected)
  {
    if !connected {
      var enrollments := mock.GetEnrollments(DummyStudentId);
      return RespondCounted(200, |enrollments|, EnrollmentList(enrollments));
    }
    var enrollments := DbMine(db.enrollments);
    return RespondCounted(200, |enrollments|, EnrollmentList(enrollments));
  }

  /** POST /api/enrollments. */
  method PostEnrollment(mock: MockStore, db: Database, connected: bool, courseId: Option<string>, now: nat) returns (r: Response)
    requires mock.Valid()
    modifies mock, db
    ensures mock.Valid()
    ensures db.courses == old(db.courses)
    ensures Handled(r, mock.enrollments, db.enrollments)
            == Post(mock.courses, mock.cmp, old(mock.enrollments), db.courses, old(db.enrollments), connected, courseId, now)
  {
    if Falsy(courseId) {
      return Reject(400, CourseIdRequired);
    }
    if !connected {
      var result := mock.Enroll(courseId.value, DummyStudentId, now);
      if result.Failure? {
        return Reject(400, result.error);
      }
      return Respond(201, EnrollmentData(result.value));
    }
    var course := CourseById(db.courses, courseId.value);
    if course.None? {
      return Reject(404, CourseNotFound);
    }
    var existing := Find(db.enrollments, (e: Enrollment) => Live(e, courseId.value, DummyStudentId));
    if existing.Some? {
      return Reject(400, DuplicateEnrollment);
    }
    var enrollment := CreateEnrollment(now, CourseKey(courseId.value), DummyStudentId, now);
    var taken := Find(db.enrollments, (e: Enrollment) => Occupies(e, courseId.value, DummyStudentId));
    if taken.Some? {
      return Forwarded;
    }
    db.enrollments := db.enrollments + [enrollment];
    return Respond(201, EnrollmentData(enrollment.(courseId := Embedded(course.value))));
  }

  /** DELETE /api/enrollments/:courseId. */
  method DeleteEnrollment(mock: MockStore, db: Database, connected: bool, courseId: string) returns (r: Response)
    requires mock.Valid()
    modifies mock, db
    ensures mock.Valid()
    ensures db.courses == old(db.courses)
    ensures Handled(r, mock.enrollments, db.enrollments) == Delete(mock.cmp, old(mock.enrollments), old(db.enrollments), connected, courseId)
  {
    if !connected {
      var result := mock.Unenroll(courseId, DummyStudentId);
      if result.Failure? {
        return Reject(404, result.error);
      }
      return Respond(200, EmptyObject);
    }
    var k := FindIndex(db.enrollments, (e: Enrollment) => Live(e, courseId, DummyStudentId));
    if k == -1 {
      return Reject(404, EnrollmentNotFound);
    }
    db.enrollments := db.enrollments[k := db.enrollments[k].(status := Dropped)];
    return Respond(200, EmptyObject);
  }

  /** GET /api/enrollments/status/:courseId. */
  method GetStatus(mock: MockStore, db: Database, connected: bool, courseId: string) returns (r: Response)
    ensures r == Status(mock.cmp, mock.enrollments, db.enrollments, connected, courseId)
  {
    if !connected {
      var status := mock.GetEnrollmentStatus(courseId, DummyStudentId);
      return Respond(200, StatusData(status.isEnrolled, status.enrollment));
    }
    var enrollment := Find(db.enrollments, (e: Enrollment) => Live(e, courseId, DummyStudentId));
    return Respond(200, StatusData(enrollment.Some?, enrollment));
  }

  /** PUT /api/enrollments/:courseId/progress. */
  method PutProgress(mock: MockStore, db: Database, connected: bool, courseId: string, progress: int) returns (r: Response)
    requires mock.Valid()
    modifies mock, db
    ensures mock.Valid()
    ensures db.courses == old(db.courses)
    ensures Handled(r, mock.enrollments, db.enrollments) == Put(mock.cmp, old(mock.enrollments), old(db.enrollments), connected, courseId, progress)
  {
    if ProgressRejected(progress) {
      return Reject(400, ProgressOutOfRange);
    }
    if !connected {
      var result := mock.UpdateProgress(courseId, DummyStudentId, progress);
      if result.Failure? {
        return Reject(404, result.error);
      }
      return Respond(200, EnrollmentData(result.value));
    }
    var k := FindIndex(db.enrollments, (e: Enrollment) => Live(e, courseId, DummyStudentId));
    if k == -1 {
      return Reject(404, EnrollmentNotFound);
    }
    db.enrollments := db.enrollments[k := db.enrollments[k].(progress := progress)];
    return Respond(200, EnrollmentData(db.enrollments[k]));
  }
}
