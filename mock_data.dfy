/** The in-memory fallback store: the fixed sample catalogue and the
    enrollment list that `enroll`, `unenroll` and `updateProgress` change.

    The store's operations are specified twice over: as functions from the
    list before to an Outcome (the error or record returned, and the list
    after), which carry the properties and the lemmas; and as the methods of
    MockStore, which change the list in place and are proved to agree with
    those functions.

    The record `enroll` builds names `courseId` twice, and the later entry,
    the course record itself, is the one kept. Every later lookup compares
    that field with a course id string using strict equality, which an
    object never satisfies. `Comparison` makes this reading explicit:
    the store as written uses StrictEquals; ByCourseId is the comparison by
    the embedded course's id that the lookups evidently intend. */
module MockData {
  import opened ArrayOps
  import opened CourseSchema
  import opened EnrollmentSchema

  const CourseNotFound := "Course not found"
  const AlreadyEnrolled := "Already enrolled in this course"
  const EnrollmentNotFound := "Enrollment not found"

  /** The fixed catalogue `sampleCourses` (creation and update timestamps
      are not modelled). Each entry is its own function so that a proof
      about one sample course does not carry the text of the others; the
      long texts are written as concatenations of pieces of at most eight
      characters, which the verifier handles far more cheaply than one
      long literal. */
  function SampleCourses(): (r: seq<Course>)
    ensures |r| == 8
  {
    [SampleCourse1(), SampleCourse2(), SampleCourse3(), SampleCourse4(),
     SampleCourse5(), SampleCourse6(), SampleCourse7(), SampleCourse8()]
  }

  function SampleCourse1(): Course {
    Course("course1", "React.js Complete Guide",
      "Master R" + "eact.js " + "from bas" + "ics to a" + "dvanced "
      + "concepts" + " includi" + "ng hooks" + ", contex" + "t, and s"
      + "tate man" + "agement." + " Build r" + "eal-worl" + "d applic"
      + "ations w" + "ith mode" + "rn React" + " pattern" + "s.",
      "Sarah Johnson", "8 weeks", "Programming", "Intermediate", 99, UnsplashUrl("1633356122544-f134324a6cee"))
  }

  function SampleCourse2(): Course {
    Course("course2", "Node.js Backend Development",
      "Learn to" + " build s" + "calable " + "backend " + "applicat"
      + "ions wit" + "h Node.j" + "s, Expre" + "ss, and " + "MongoDB."
      + " Cover a" + "uthentic" + "ation, A" + "PI desig" + "n, and d"
      + "eploymen" + "t strate" + "gies.",
      "Michael Chen", "10 weeks", "Programming", "Advanced", 129, UnsplashUrl("1555066931-4365d14bab8c"))
  }

  function SampleCourse3(): Course {
    Course("course3", "UI/UX Design Fundamentals",
      "Master t" + "he princ" + "iples of" + " user in" + "terface "
      + "and user" + " experie" + "nce desi" + "gn. Lear" + "n to cre"
      + "ate intu" + "itive, a" + "ccessibl" + "e, and b" + "eautiful"
      + " digital" + " product" + "s.",
      "Emily Rodriguez", "6 weeks", "Design", "Beginner", 79, UnsplashUrl("1561070791-2526d30994b5"))
  }

  function SampleCourse4(): Course {
    Course("course4", "Digital Marketing Strategy",
      "Develop " + "comprehe" + "nsive di" + "gital ma" + "rketing "
      + "strategi" + "es. Lear" + "n SEO, s" + "ocial me" + "dia mark"
      + "eting, c" + "ontent c" + "reation," + " and ana" + "lytics t"
      + "o grow y" + "our busi" + "ness.",
      "David Kim", "7 weeks", "Marketing", "Intermediate", 89, UnsplashUrl("1460925895917-afdab827c52f"))
  }

  function SampleCourse5(): Course {
    Course("course5", "Python for Data Science",
      "Learn Py" + "thon pro" + "gramming" + " for dat" + "a analys"
      + "is, mach" + "ine lear" + "ning, an" + "d visual" + "ization."
      + " Work wi" + "th panda" + "s, numpy" + ", matplo" + "tlib, an"
      + "d scikit" + "-learn.",
      "Alex Thompson", "9 weeks", "Programming", "Intermediate", 119, UnsplashUrl("1526379095098-d400fd0bf935"))
  }

  function SampleCourse6(): Course {
    Course("course6", "Business Analytics",
      "Master b" + "usiness " + "analytic" + "s tools " + "and tech"
      + "niques. " + "Learn to" + " analyze" + " data, c" + "reate re"
      + "ports, a" + "nd make " + "data-dri" + "ven busi" + "ness dec"
      + "isions.",
      "Lisa Wang", "5 weeks", "Business", "Advanced", 149, UnsplashUrl("1551288049-bebda4e38f71"))
  }

  function SampleCourse7(): Course {
    Course("course7", "Web Development Bootcamp",
      "Complete" + " web dev" + "elopment" + " course " + "covering"
      + " HTML, C" + "SS, Java" + "Script, " + "and mode" + "rn frame"
      + "works. B" + "uild ful" + "l-stack " + "applicat" + "ions fro"
      + "m scratc" + "h.",
      "James Wilson", "12 weeks", "Programming", "Beginner", 199, UnsplashUrl("1461749280684-dccba630e2f6"))
  }

  function SampleCourse8(): Course {
    Course("course8", "Product Management",
      "Learn pr" + "oduct ma" + "nagement" + " fundame" + "ntals, u"
      + "ser rese" + "arch, pr" + "oduct st" + "rategy, " + "and agil"
      + "e method" + "ologies " + "to build" + " success" + "ful prod"
      + "ucts.",
      "Rachel Green", "8 weeks", "Business", "Intermediate", 139, UnsplashUrl("1552664730-d307ca884978"))
  }

  const SampleIds: seq<string> := ["course1", "course2", "course3", "course4", "course5", "course6", "course7", "course8"]

  /** The courses of `catalog` carry the ids `ids`, in order. */
  ghost predicate IdsAre(catalog: seq<Course>, ids: seq<string>) {
    |catalog| == |ids| && forall k :: 0 <= k < |ids| ==> catalog[k].id == ids[k]
  }

  ghost predicate Distinct(ids: seq<string>) {
    forall i, j :: 0 <= i < j < |ids| ==> ids[i] != ids[j]
  }

  /** The sample ids are course1 to course8, in order. */
  lemma SampleIdsListed()
    ensures IdsAre(SampleCourses(), SampleIds)
  {
  }

  /** The ids course1 to course8 are pairwise distinct. */
  lemma SampleIdsDistinct()
    ensures Distinct(SampleIds)
  {
    forall i, j | 0 <= i < j < |SampleIds| ensures SampleIds[i] != SampleIds[j] {
      assert SampleIds[i][6] != SampleIds[j][6];
    }
  }

  /** Every sample course satisfies the course schema. */
  lemma SampleCoursesValid()
    ensures forall k :: 0 <= k < |SampleCourses()| ==> ValidCourse(SampleCourses()[k])
  {
    SampleCoursesValidFirstHalf();
    SampleCoursesValidSecondHalf();
  }

  lemma SampleCoursesValidFirstHalf()
    ensures forall k :: 0 <= k < 4 ==> ValidCourse(SampleCourses()[k])
  {
    SampleCourse1Valid();
    SampleCourse2Valid();
    SampleCourse3Valid();
    SampleCourse4Valid();
  }

  lemma SampleCoursesValidSecondHalf()
    ensures forall k :: 4 <= k < 8 ==> ValidCourse(SampleCourses()[k])
  {
    SampleCourse5Valid();
    SampleCourse6Valid();
    SampleCourse7Valid();
    SampleCourse8Valid();
  }

  lemma SampleCourse1Valid()
    ensures ValidCourse(SampleCourse1())
  {
  }

  lemma SampleCourse2Valid()
    ensures ValidCourse(SampleCourse2())
  {
  }

  lemma SampleCourse3Valid()
    ensures ValidCourse(SampleCourse3())
  {
  }

  lemma SampleCourse4Valid()
    ensures ValidCourse(SampleCourse4())
  {
  }

  lemma SampleCourse5Valid()
    ensures ValidCourse(SampleCourse5())
  {
  }

  lemma SampleCourse6Valid()
    ensures ValidCourse(SampleCourse6())
  {
  }

  lemma SampleCourse7Valid()
    ensures ValidCourse(SampleCourse7())
  {
  }

  lemma SampleCourse8Valid()
    ensures ValidCourse(SampleCourse8())
  {
  }

  /** `getCourses`: the whole sample catalogue. */
  function GetCourses(): (r: seq<Course>)
    ensures |r| == 8
  {
    SampleCourses()
  }

  /** `find` by `_id` over a catalogue: the first course with that id, or
      nothing when none has it. */
  function CourseById(catalog: seq<Course>, id: string): (r: Option<Course>)
    ensures r.None? <==> forall k :: 0 <= k < |catalog| ==> catalog[k].id != id
    ensures r.Some? ==> exists k :: 0 <= k < |catalog| && catalog[k] == r.value && r.value.id == id
                                    && forall j :: 0 <= j < k ==> catalog[j].id != id
  {
    Find(catalog, (c: Course) => c.id == id)
  }

  /** `findIndex` by `_id`: the position of the first course with that
      id, or -1 when none has it. */
  function IndexById(catalog: seq<Course>, id: string): (k: int)
    ensures -1 <= k < |catalog|
    ensures k == -1 <==> forall i :: 0 <= i < |catalog| ==> catalog[i].id != id
    ensures 0 <= k ==> catalog[k].id == id && forall j :: 0 <= j < k ==> catalog[j].id != id
  {
    FindIndex(catalog, (c: Course) => c.id == id)
  }

  /** In a catalogue whose ids are known, a lookup finds nothing exactly
      when the id is not among them. */
  lemma CourseByIdAbsent(catalog: seq<Course>, ids: seq<string>, id: string)
    requires IdsAre(catalog, ids)
    ensures CourseById(catalog, id).None? <==> id !in ids
  {
    if id in ids {
      var k :| 0 <= k < |ids| && ids[k] == id;
      assert catalog[k].id == id;
    }
  }

  /** A course a lookup finds is in the catalogue and has the id. */
  lemma CourseByIdFound(catalog: seq<Course>, id: string)
    ensures CourseById(catalog, id).Some? ==>
              CourseById(catalog, id).value in catalog && CourseById(catalog, id).value.id == id
  {
  }

  /** In a catalogue whose ids are known and distinct, each course is
      found by its own id. */
  lemma CourseByIdFindsOwn(catalog: seq<Course>, ids: seq<string>, k: nat)
    requires IdsAre(catalog, ids) && Distinct(ids) && k < |ids|
    ensures CourseById(catalog, ids[k]) == Some(catalog[k])
  {
    assert catalog[k].id == ids[k];
    forall i | 0 <= i < |catalog| && catalog[i].id == ids[k] ensures i == k {
      assert catalog[i].id == ids[i];
    }
  }

  /** `getCourseById`: the sample course with the given id, or nothing
      when the id is not one of course1 to course8. */
  function GetCourseById(id: string): (r: Option<Course>)
    ensures r.None? <==> id !in SampleIds
    ensures r.Some? ==> r.value.id == id && r.value in SampleCourses()
  {
    SampleIdsListed();
    CourseByIdAbsent(SampleCourses(), SampleIds, id);
    CourseByIdFound(SampleCourses(), id);
    CourseById(SampleCourses(), id)
  }

  /** Each sample course is found by its own id, course1 to course8. */
  lemma GetCourseByIdFindsEach(k: nat)
    requires k < 8
    ensures SampleCourses()[k].id == SampleIds[k]
    ensures GetCourseById(SampleIds[k]) == Some(SampleCourses()[k])
  {
    SampleIdsListed();
    SampleIdsDistinct();
    CourseByIdFindsOwn(SampleCourses(), SampleIds, k);
  }

  /** How a stored `courseId` field is compared with a course id string. */
  datatype Comparison =
    | StrictEquals  // `===` on the field as stored
    | ByCourseId    // by the id of the course the field designates

  /** The lookup of `enroll` and `unenroll`: same course and student. By
      course id, that is the record holding the pair's index slot. */
  predicate MatchesPair(e: Enrollment, courseId: string, studentId: string, cmp: Comparison) {
    match cmp
    case StrictEquals => e.courseId == CourseKey(courseId) && e.studentId == studentId
    case ByCourseId => Occupies(e, courseId, studentId)
  }

  /** The lookup of `getEnrollmentStatus` and `updateProgress`: a matching
      record whose status is active. */
  predicate MatchesActive(e: Enrollment, courseId: string, studentId: string, cmp: Comparison) {
    MatchesPair(e, courseId, studentId, cmp) && e.status == Active
  }

  ghost predicate FirstPairMatch(s: seq<Enrollment>, k: int, courseId: string, studentId: string, cmp: Comparison) {
    && 0 <= k < |s| && MatchesPair(s[k], courseId, studentId, cmp)
    && forall j :: 0 <= j < k ==> !MatchesPair(s[j], courseId, studentId, cmp)
  }

  ghost predicate FirstActiveMatch(s: seq<Enrollment>, k: int, courseId: string, studentId: string, cmp: Comparison) {
    && 0 <= k < |s| && MatchesActive(s[k], courseId, studentId, cmp)
    && forall j :: 0 <= j < k ==> !MatchesActive(s[j], courseId, studentId, cmp)
  }

  /** What a store operation returns (or throws) and the list afterwards. */
  datatype Outcome = Outcome(result: Result<Enrollment>, store: seq<Enrollment>)

  /** The record `enroll` pushes; its id and date come from the clock. */
  function EnrollRecord(course: Course, studentId: string, now: nat): Enrollment {
    Enrollment(now, Embedded(course), studentId, now, Active, 0)
  }

  /** `enroll`: unknown course, then an existing record for the pair
      (whatever its status), are refused; otherwise exactly one active
      record with progress 0 is appended and returned. */
  function EnrollStep(catalog: seq<Course>, s: seq<Enrollment>, courseId: string, studentId: string, now: nat, cmp: Comparison): (out: Outcome)
    ensures CourseById(catalog, courseId).None? ==> out == Outcome(Failure(CourseNotFound), s)
    ensures out.result == Failure(AlreadyEnrolled) <==>
              CourseById(catalog, courseId).Some? && exists i :: 0 <= i < |s| && MatchesPair(s[i], courseId, studentId, cmp)
    ensures out.result.Success? <==>
              CourseById(catalog, courseId).Some? && forall i :: 0 <= i < |s| ==> !MatchesPair(s[i], courseId, studentId, cmp)
    ensures out.result.Failure? ==> out.store == s
    ensures out.result.Success? ==>
              && out.store == s + [out.result.value]
              && out.result.value.courseId == Embedded(CourseById(catalog, courseId).value)
              && out.result.value.studentId == studentId
              && out.result.value.status == Active
              && out.result.value.progress == 0
              && out.result.value.id == now && out.result.value.enrollmentDate == now
  {
    match CourseById(catalog, courseId)
    case None => Outcome(Failure(CourseNotFound), s)
    case Some(course) =>
      if Find(s, (e: Enrollment) => MatchesPair(e, courseId, studentId, cmp)).Some? then
        Outcome(Failure(AlreadyEnrolled), s)
      else
        var e := EnrollRecord(course, studentId, now);
        Outcome(Success(e), s + [e])
  }

  /** `unenroll`: without a matching record it throws; otherwise it marks
      the first matching record dropped, whatever its status was, and
      removes nothing. */
  function UnenrollStep(s: seq<Enrollment>, courseId: string, studentId: string, cmp: Comparison): (out: Outcome)
    ensures out.result.Failure? <==> forall i :: 0 <= i < |s| ==> !MatchesPair(s[i], courseId, studentId, cmp)
    ensures out.result.Failure? ==> out == Outcome(Failure(EnrollmentNotFound), s)
    ensures out.result.Success? ==>
              exists k :: FirstPairMatch(s, k, courseId, studentId, cmp)
                          && out.store == s[k := s[k].(status := Dropped)]
                          && out.result.value == out.store[k]
    ensures |out.store| == |s|
  {
    var k := FindIndex(s, (e: Enrollment) => MatchesPair(e, courseId, studentId, cmp));
    if k == -1 then Outcome(Failure(EnrollmentNotFound), s)
    else
      var after := s[k := s[k].(status := Dropped)];
      Outcome(Success(after[k]), after)
  }

  /** `updateProgress`: without an active matching record it throws;
      otherwise it overwrites the progress of the first one, with no range
      check of its own. */
  function UpdateProgressStep(s: seq<Enrollment>, courseId: string, studentId: string, progress: int, cmp: Comparison): (out: Outcome)
    ensures out.result.Failure? <==> forall i :: 0 <= i < |s| ==> !MatchesActive(s[i], courseId, studentId, cmp)
    ensures out.result.Failure? ==> out == Outcome(Failure(EnrollmentNotFound), s)
    ensures out.result.Success? ==>
              exists k :: FirstActiveMatch(s, k, courseId, studentId, cmp)
                          && out.store == s[k := s[k].(progress := progress)]
                          && out.result.value == out.store[k]
    ensures |out.store| == |s|
  {
    var k := FindIndex(s, (e: Enrollment) => MatchesActive(e, courseId, studentId, cmp));
    if k == -1 then Outcome(Failure(EnrollmentNotFound), s)
    else
      var after := s[k := s[k].(progress := progress)];
      Outcome(Success(after[k]), after)
  }

  /** The object `getEnrollmentStatus` returns. */
  datatype StatusReply = StatusReply(isEnrolled: bool, enrollment: Option<Enrollment>)

  /** `getEnrollmentStatus`: enrolled exactly when an active matching record
      exists, and then the first such record. */
  function EnrollmentStatus(s: seq<Enrollment>, courseId: string, studentId: string, cmp: Comparison): (r: StatusReply)
    ensures r.isEnrolled <==> exists i :: 0 <= i < |s| && MatchesActive(s[i], courseId, studentId, cmp)
    ensures r.isEnrolled <==> r.enrollment.Some?
    ensures r.enrollment.Some? ==>
              exists k :: FirstActiveMatch(s, k, courseId, studentId, cmp) && s[k] == r.enrollment.value
  {
    var found := Find(s, (e: Enrollment) => MatchesActive(e, courseId, studentId, cmp));
    StatusReply(found.Some?, found)
  }

  /** `getEnrollments`: every record of the student, in insertion order,
      dropped ones included. */
  function EnrollmentsOf(s: seq<Enrollment>, studentId: string): (r: seq<Enrollment>)
    ensures forall i :: 0 <= i < |r| ==> r[i].studentId == studentId
    ensures forall i :: 0 <= i < |s| && s[i].studentId == studentId ==> s[i] in r
    ensures IsSubsequence(r, s)
    ensures forall e :: multiset(r)[e] == (if e.studentId == studentId then multiset(s)[e] else 0)
  {
    FilterCounts(s, (e: Enrollment) => e.studentId == studentId);
    Filter(s, (e: Enrollment) => e.studentId == studentId)
  }

  /** Every record the store as written can hold carries an embedded course. */
  ghost predicate AllEmbedded(s: seq<Enrollment>) {
    forall i :: 0 <= i < |s| ==> s[i].courseId.Embedded?
  }

  /** All three writes of the store as written keep every record embedded. */
  lemma AsWrittenKeepsEmbedded(catalog: seq<Course>, s: seq<Enrollment>, courseId: string, studentId: string, now: nat, progress: int)
    requires AllEmbedded(s)
    ensures AllEmbedded(EnrollStep(catalog, s, courseId, studentId, now, StrictEquals).store)
    ensures AllEmbedded(UnenrollStep(s, courseId, studentId, StrictEquals).store)
    ensures AllEmbedded(UpdateProgressStep(s, courseId, studentId, progress, StrictEquals).store)
  {
  }

  /** As written, no stored record ever matches a lookup, so `enroll` never
      reports a duplicate, `unenroll` and `updateProgress` always throw and
      the status is always "not enrolled". */
  lemma AsWrittenLookupsNeverMatch(catalog: seq<Course>, s: seq<Enrollment>, courseId: string, studentId: string, now: nat, progress: int)
    requires AllEmbedded(s)
    ensures CourseById(catalog, courseId).Some? ==> EnrollStep(catalog, s, courseId, studentId, now, StrictEquals).result.Success?
    ensures UnenrollStep(s, courseId, studentId, StrictEquals) == Outcome(Failure(EnrollmentNotFound), s)
    ensures UpdateProgressStep(s, courseId, studentId, progress, StrictEquals) == Outcome(Failure(EnrollmentNotFound), s)
    ensures EnrollmentStatus(s, courseId, studentId, StrictEquals) == StatusReply(false, None)
  {
    assert forall i :: 0 <= i < |s| ==> !MatchesPair(s[i], courseId, studentId, StrictEquals);
  }

  /** As written, enrolling twice in one course succeeds both times, grows
      the store by two, and leaves two records on the same (course,
      student) pair, which the schema's unique index forbids. */
  lemma AsWrittenDoubleEnroll(catalog: seq<Course>, s: seq<Enrollment>, courseId: string, studentId: string, t1: nat, t2: nat)
    requires AllEmbedded(s)
    requires CourseById(catalog, courseId).Some?
    ensures var first := EnrollStep(catalog, s, courseId, studentId, t1, StrictEquals);
            var second := EnrollStep(catalog, first.store, courseId, studentId, t2, StrictEquals);
            && first.result.Success? && second.result.Success?
            && |second.store| == |s| + 2
            && !UniquePairs(second.store)
  {
    var first := EnrollStep(catalog, s, courseId, studentId, t1, StrictEquals);
    AsWrittenLookupsNeverMatch(catalog, s, courseId, studentId, t1, 0);
    AsWrittenKeepsEmbedded(catalog, s, courseId, studentId, t1, 0);
    AsWrittenLookupsNeverMatch(catalog, first.store, courseId, studentId, t2, 0);
    var second := EnrollStep(catalog, first.store, courseId, studentId, t2, StrictEquals);
    assert SamePair(second.store[|s|], second.store[|s| + 1]);
  }

  /** With the intended comparison, `enroll` keeps the unique index. */
  lemma IntendedEnrollKeepsIndex(catalog: seq<Course>, s: seq<Enrollment>, courseId: string, studentId: string, now: nat)
    requires UniquePairs(s)
    ensures UniquePairs(EnrollStep(catalog, s, courseId, studentId, now, ByCourseId).store)
  {
    var out := EnrollStep(catalog, s, courseId, studentId, now, ByCourseId);
    if out.result.Success? {
      var e := out.result.value;
      assert CourseIdentity(e.courseId) == courseId;
      forall i | 0 <= i < |s| ensures !SamePair(s[i], e) {
        assert !MatchesPair(s[i], courseId, studentId, ByCourseId);
      }
      InsertRespectsIndexIff(s, e);
    }
  }

  /** With the intended comparison, a second enroll in the same course is
      refused, and so is one after an unenroll: the dropped record still
      occupies the pair. */
  lemma IntendedSecondEnrollRefused(catalog: seq<Course>, s: seq<Enrollment>, courseId: string, studentId: string, t1: nat, t2: nat)
    requires CourseById(catalog, courseId).Some?
    requires forall i :: 0 <= i < |s| ==> !MatchesPair(s[i], courseId, studentId, ByCourseId)
    ensures var first := EnrollStep(catalog, s, courseId, studentId, t1, ByCourseId);
            && first.result.Success?
            && EnrollStep(catalog, first.store, courseId, studentId, t2, ByCourseId).result == Failure(AlreadyEnrolled)
            && EnrollStep(catalog, UnenrollStep(first.store, courseId, studentId, ByCourseId).store,
                          courseId, studentId, t2, ByCourseId).result == Failure(AlreadyEnrolled)
  {
    var first := EnrollStep(catalog, s, courseId, studentId, t1, ByCourseId);
    assert MatchesPair(first.store[|s|], courseId, studentId, ByCourseId);
    var dropped := UnenrollStep(first.store, courseId, studentId, ByCourseId).store;
    assert MatchesPair(dropped[|s|], courseId, studentId, ByCourseId);
  }

  /** A worked scenario (enroll in course1, set progress to
      50, query, unenroll, query), for a catalogue holding course1, under
      both comparisons: as written the update throws and the query does not
      find the enrollment; as intended the first query sees progress 50 and
      the second sees none. */
  lemma WorkedExample(catalog: seq<Course>, studentId: string, t: nat)
    requires CourseById(catalog, "course1").Some?
    ensures var e := EnrollStep(catalog, [], "course1", studentId, t, StrictEquals);
            && e.result.Success?
            && UpdateProgressStep(e.store, "course1", studentId, 50, StrictEquals).result == Failure(EnrollmentNotFound)
            && !EnrollmentStatus(e.store, "course1", studentId, StrictEquals).isEnrolled
    ensures var e := EnrollStep(catalog, [], "course1", studentId, t, ByCourseId);
            var p := UpdateProgressStep(e.store, "course1", studentId, 50, ByCourseId);
            var st := EnrollmentStatus(p.store, "course1", studentId, ByCourseId);
            var u := UnenrollStep(p.store, "course1", studentId, ByCourseId);
            && e.result.Success? && p.result.Success?
            && st.isEnrolled && st.enrollment.value.progress == 50
            && u.result.Success?
            && !EnrollmentStatus(u.store, "course1", studentId, ByCourseId).isEnrolled
  {
    var e := EnrollStep(catalog, [], "course1", studentId, t, StrictEquals);
    AsWrittenLookupsNeverMatch(catalog, e.store, "course1", studentId, t, 50);
    var e' := EnrollStep(catalog, [], "course1", studentId, t, ByCourseId);
    assert |e'.store| == 1 && MatchesActive(e'.store[0], "course1", studentId, ByCourseId);
    var p := UpdateProgressStep(e'.store, "course1", studentId, 50, ByCourseId);
    assert p.store[0] == e'.store[0].(progress := 50);
    var u := UnenrollStep(p.store, "course1", studentId, ByCourseId);
    assert u.store[0].status == Dropped;
  }

  /** The module-level `mockEnrollments` list, the catalogue it is checked
      against, and the operations of the service object that read and
      write the list. `cmp` fixes how the lookups compare a stored course
      reference with a course id: StrictEquals is the store as written,
      ByCourseId the corrected one. */
  class MockStore {
    const courses: seq<Course>
    const cmp: Comparison
    var enrollments: seq<Enrollment>

    /** As written, every stored record carries the embedded course, which
        is what the lemmas about the store as written start from. */
    ghost predicate Valid()
      reads this
    {
      cmp == StrictEquals ==> AllEmbedded(enrollments)
    }

    constructor(cmp: Comparison)
      ensures courses == SampleCourses() && this.cmp == cmp && enrollments == []
      ensures Valid()
    {
      courses := SampleCourses();
      this.cmp := cmp;
      enrollments := [];
    }

    function GetEnrollments(studentId: string): seq<Enrollment>
      reads this
    {
      EnrollmentsOf(enrollments, studentId)
    }

    function GetEnrollmentStatus(courseId: string, studentId: string): StatusReply
      reads this
    {
      EnrollmentStatus(enrollments, courseId, studentId, cmp)
    }

    method Enroll(courseId: string, studentId: string, now: nat) returns (r: Result<Enrollment>)
      requires Valid()
      modifies this
      ensures Valid()
      ensures Outcome(r, enrollments) == EnrollStep(courses, old(enrollments), courseId, studentId, now, cmp)
    {
      var course := Find(courses, (c: Course) => c.id == courseId);
      if course.None? {
        return Failure(CourseNotFound);
      }
      var compare := cmp;
      var existing := Find(enrollments, (e: Enrollment) => MatchesPair(e, courseId, studentId, compare));
      if existing.Some? {
        return Failure(AlreadyEnrolled);
      }
      var enrollment := Enrollment(now, Embedded(course.value), studentId, now, Active, 0);
      enrollments := enrollments + [enrollment];
      return Success(enrollment);
    }

    method Unenroll(courseId: string, studentId: string) returns (r: Result<Enrollment>)
      requires Valid()
      modifies this
      ensures Valid()
      ensures Outcome(r, enrollments) == UnenrollStep(old(enrollments), courseId, studentId, cmp)
    {
      var compare := cmp;
      var index := FindIndex(enrollments, (e: Enrollment) => MatchesPair(e, courseId, studentId, compare));
      if index == -1 {
        return Failure(EnrollmentNotFound);
      }
      enrollments := enrollments[index := enrollments[index].(status := Dropped)];
      return Success(enrollments[index]);
    }

    method UpdateProgress(courseId: string, studentId: string, progress: int) returns (r: Result<Enrollment>)
      requires Valid()
      modifies this
      ensures Valid()
      ensures Outcome(r, enrollments) == UpdateProgressStep(old(enrollments), courseId, studentId, progress, cmp)
    {
      var compare := cmp;
      var found := FindIndex(enrollments, (e: Enrollment) => MatchesActive(e, courseId, studentId, compare));
      if found == -1 {
        return Failure(EnrollmentNotFound);
      }
      enrollments := enrollments[found := enrollments[found].(progress := progress)];
      return Success(enrollments[found]);
    }
  }
}
