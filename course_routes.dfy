/** The course handlers: the list and the single-course read, which fall
    back to the sample catalogue without a database connection, and the
    update and delete of a stored course, whose outcome when no course has
    the id is 404 'Course not found'. */
module CourseRoutes {
  import opened ArrayOps
  import opened CourseSchema
  import opened MockData
  import opened Responses

  /** The answer of a course write and the course list after it. */
  datatype CourseReply = CourseReply(response: Response, courses: seq<Course>)

  /** No two stored courses share an id. */
  ghost predicate DistinctIds(courses: seq<Course>) {
    forall i, j :: 0 <= i < j < |courses| ==> courses[i].id != courses[j].id
  }

  /** GET /api/courses: 200 with the whole list and `count` its length; the
      sample catalogue without a connection, otherwise the stored list. */
  function ListCourses(connected: bool, stored: seq<Course>): (r: Response)
    ensures r.Json? && r.status == 200 && r.success && r.error.None?
    ensures r.data.Some? && r.data.value.CourseList?
    ensures r.count == Some(|r.data.value.courses|)
    ensures !connected ==> r.data.value.courses == GetCourses()
    ensures connected ==> r.data.value.courses == stored
  {
    var courses := if connected then stored else GetCourses();
    RespondCounted(200, |courses|, CourseList(courses))
  }

  /** Without a connection the list holds the eight sample courses. */
  lemma MockListHasEightCourses(stored: seq<Course>)
    ensures ListCourses(false, stored).count == Some(8)
  {
  }

  /** The read of one course from a list: 404 'Course not found' when no
      course has the id, else 200 with the first course that has it. */
  function CourseAnswer(courses: seq<Course>, id: string): (r: Response)
    ensures (forall k :: 0 <= k < |courses| ==> courses[k].id != id) <==> r == Reject(404, CourseNotFound)
    ensures r.Json? && r.status == 200 ==>
              exists k :: 0 <= k < |courses| && r == Respond(200, CourseData(courses[k])) && courses[k].id == id
    ensures r.Json? && (r.status == 200 || r.status == 404)
  {
    match CourseById(courses, id)
    case None => Reject(404, CourseNotFound)
    case Some(course) => Respond(200, CourseData(course))
  }

  /** GET /api/courses/:id: without a connection the sample catalogue's
      `getCourseById` decides, 404 'Course not found' for an id outside
      course1..course8 and 200 with the course otherwise; with one, the
      stored list. */
  function GetCourse(connected: bool, stored: seq<Course>, id: string): (r: Response)
    ensures connected ==> r == CourseAnswer(stored, id)
    ensures !connected ==> (r == Reject(404, CourseNotFound) <==> id !in SampleIds)
    ensures !connected && id in SampleIds ==>
              exists c :: c in SampleCourses() && c.id == id && r == Respond(200, CourseData(c))
  {
    if connected then CourseAnswer(stored, id)
    else
      match GetCourseById(id)
      case None => Reject(404, CourseNotFound)
      case Some(course) => Respond(200, CourseData(course))
  }

  /** Without a connection, each sample id answers 200 with its own course. */
  lemma MockGetCourse(stored: seq<Course>, k: nat)
    requires k < 8
    ensures GetCourse(false, stored, SampleIds[k]) == Respond(200, CourseData(SampleCourses()[k]))
  {
    GetCourseByIdFindsEach(k);
  }

  /** PUT /api/courses/:id with the validators on: the body is cast first,
      so its text fields are trimmed by the schema's setters; a cast update
      the schema refuses is an error for the middleware; otherwise 404 when
      no course has the id, else the first course with the id (the one
      IndexById finds) is replaced by the cast update, keeping its id, and
      200 answers with it. */
  function PutCourse(courses: seq<Course>, id: string, update: Course): (out: CourseReply)
    ensures !ValidCourse(TrimText(update)) ==> out == CourseReply(Forwarded, courses)
    ensures ValidCourse(TrimText(update)) && (forall k :: 0 <= k < |courses| ==> courses[k].id != id) ==>
              out == CourseReply(Reject(404, CourseNotFound), courses)
    ensures ValidCourse(TrimText(update)) && (exists k :: 0 <= k < |courses| && courses[k].id == id) ==>
              var k := IndexById(courses, id);
              && out.courses == courses[k := TrimText(update).(id := id)]
              && out.response == Respond(200, CourseData(TrimText(update).(id := id)))
    ensures |out.courses| == |courses|
  {
    var cast := TrimText(update);
    if !ValidCourse(cast) then CourseReply(Forwarded, courses)
    else
      var k := IndexById(courses, id);
      if k == -1 then CourseReply(Reject(404, CourseNotFound), courses)
      else CourseReply(Respond(200, CourseData(cast.(id := id))), courses[k := cast.(id := id)])
  }

  /** Whatever a successful update stores is valid under the schema, and an
      update that was already valid is stored as given. */
  lemma PutStoresValid(courses: seq<Course>, id: string, update: Course)
    requires PutCourse(courses, id, update).response.Json? && PutCourse(courses, id, update).response.status == 200
    ensures PutCourse(courses, id, update).response.data == Some(CourseData(TrimText(update).(id := id)))
    ensures ValidCourse(TrimText(update).(id := id))
    ensures ValidCourse(update) ==> PutCourse(courses, id, update).response.data == Some(CourseData(update.(id := id)))
  {
    if ValidCourse(update) {
      TrimTextKeepsValid(update);
    }
  }

  /** DELETE /api/courses/:id: 404 when no course has the id; else the
      first course with the id (the one IndexById finds) is removed, the
      others kept in order, and 200 answers `{}`. */
  function DeleteCourse(courses: seq<Course>, id: string): (out: CourseReply)
    ensures (forall k :: 0 <= k < |courses| ==> courses[k].id != id) ==>
              out == CourseReply(Reject(404, CourseNotFound), courses)
    ensures (exists k :: 0 <= k < |courses| && courses[k].id == id) ==>
              out == CourseReply(Respond(200, EmptyObject), RemoveAt(courses, IndexById(courses, id)))
  {
    var k := IndexById(courses, id);
    if k == -1 then CourseReply(Reject(404, CourseNotFound), courses)
    else CourseReply(Respond(200, EmptyObject), RemoveAt(courses, k))
  }

  /** With distinct ids, a deleted course is gone: reading it answers 404,
      and deleting it again answers 404 and changes nothing. */
  lemma DeleteThenGone(courses: seq<Course>, id: string)
    requires DistinctIds(courses)
    ensures var after := DeleteCourse(courses, id).courses;
            && CourseAnswer(after, id) == Reject(404, CourseNotFound)
            && DeleteCourse(after, id) == CourseReply(Reject(404, CourseNotFound), after)
  {
    var k := IndexById(courses, id);
    if k != -1 {
      var after := RemoveAt(courses, k);
      forall i | 0 <= i < |after| ensures after[i].id != id {
        if i < k {
          assert after[i] == courses[i];
        } else {
          assert after[i] == courses[i + 1];
        }
      }
    }
  }

  /** Reading a course after a successful update answers with the update,
      under the course's own id. */
  lemma PutThenGet(courses: seq<Course>, id: string, update: Course)
    requires PutCourse(courses, id, update).response.Json? && PutCourse(courses, id, update).response.status == 200
    ensures CourseAnswer(PutCourse(courses, id, update).courses, id) == Respond(200, CourseData(TrimText(update).(id := id)))
  {
    var k := IndexById(courses, id);
    var after := PutCourse(courses, id, update).courses;
    assert after == courses[k := TrimText(update).(id := id)];
    forall j | 0 <= j < k ensures after[j].id != id {
      assert after[j] == courses[j];
    }
    assert after[k].id == id;
  }
}
