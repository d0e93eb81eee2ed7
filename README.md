# CourseHub enrollment core, modelled in Dafny

CourseHub is a course catalogue with an enrollment tracker: a student browses
courses, enrolls, unenrolls and records progress. This project models the part
of it that holds state and makes decisions:

- the in-memory fallback store (`sampleCourses`, `mockEnrollments` and the
  service object that reads and changes them), module `MockData`;
- the five enrollment handlers and the course handlers, with their input
  guards, their choice between the in-memory store and the database, and the
  mapping of each outcome to an HTTP status and a JSON envelope, modules
  `EnrollmentRoutes`, `CourseRoutes` and `Responses`;
- the field constraints of the course and enrollment schemas, including the
  unique index on the (course, student) pair, modules `CourseSchema` and
  `EnrollmentSchema`;
- the catalogue page's filter and its reset (`CourseList`), the dashboard
  figures and progress selector of the enrollments page (`EnrollmentsPage`),
  and the badge mappings and enroll/unenroll toggle of a course card
  (`CourseCard`);
- `ArrayOps` holds the JavaScript `find`, `findIndex` and `filter` that the
  code above is written with, and the option/result wrappers.

The store operations are specified as functions from the list before to an
`Outcome` (the record returned or the error thrown, and the list after); the
class `MockData.MockStore` holds the list as a field, changes it in place and is
proved to agree with those functions. The handlers are likewise functions
(`Post`, `Delete`, `Put`, `Status`, `Mine`) paired with methods that call the
store's methods.

The record that `enroll` builds names `courseId` twice, and the later entry,
the course object itself, is the one that is kept. Every lookup afterwards
compares that field with a course id using `===`, which never holds. The
lookups are parameterised by `Comparison`: `StrictEquals` is the code as
written, `ByCourseId` compares by the id of the embedded course. Both are
proved about (see "## Findings").

Where the code differs from the behaviour one would expect of an enrollment
store (one non-dropped record per pair, a progress clamped into range), the
model follows the code:

- the in-memory `getEnrollments` returns dropped records too; only the
  database query leaves them out;
- the in-memory `enroll` refuses a pair held by a record of any status; the
  database handler answers 400 only for a pair held by a non-dropped record,
  and when only a dropped record holds it, the create breaks the unique index
  and the error goes to the middleware, so re-enrolling after an unenroll
  fails there too;
- an out-of-range progress is refused with 400, not clamped.

Clock values (`Date.now()`, `new Date()`) are a `now: nat` parameter. Whether
the database is connected is a `connected: bool` parameter. The answers of the
client's network calls are parameters of the client methods.

## Model

| member | source | states |
|---|---|---|
| `MockData.SampleIdsListed` | server/utils/mockData.js:1-106 | the eight sample courses carry the ids course1 to course8, in order |
| `MockData.SampleCourses` | server/utils/mockData.js:1-106 | the fixed catalogue `sampleCourses`, eight courses transcribed field by field |
| `MockData.SampleIdsDistinct` | server/utils/mockData.js:1-106 | the ids course1 to course8 are pairwise distinct |
| `MockData.SampleCoursesValid` | server/utils/mockData.js:1-106 | every sample course satisfies the course schema's constraints |
| `MockData.GetCourses` | server/utils/mockData.js:113-115 | `getCourses` answers a catalogue of exactly eight courses |
| `MockData.GetCourseById` | server/utils/mockData.js:118-120 | nothing exactly when the id is not a sample id; otherwise a sample course with that id |
| `MockData.CourseById` | server/utils/mockData.js:119 | `find` by `_id`: nothing iff no course has the id, else the first course that has it |
| `MockData.IndexById` | server/routes/courses.js:97-107 | the position of the first course with the id, or -1 iff none has it |
| `MockData.CourseByIdAbsent` | server/utils/mockData.js:119 | in a catalogue with known ids, the lookup finds nothing iff the id is not among them |
| `MockData.CourseByIdFindsOwn` | server/utils/mockData.js:119 | in a catalogue with known distinct ids, each course is found by its own id |
| `MockData.GetCourseByIdFindsEach` | server/utils/mockData.js:118-120 | sample course k has id course(k+1) and is what `getCourseById` returns for it |
| `MockData.EnrollStep` | server/utils/mockData.js:128-154 | unknown course: 'Course not found', list unchanged; 'Already enrolled' iff a record matches the pair whatever its status; success iff neither, appending exactly one active record with progress 0, the student and the embedded course |
| `MockData.UnenrollStep` | server/utils/mockData.js:157-168 | 'Enrollment not found' iff no record matches, list unchanged; otherwise only the first match becomes dropped, whatever its status, nothing is removed |
| `MockData.UpdateProgressStep` | server/utils/mockData.js:182-193 | throws iff no active match; otherwise only the first active match's progress is overwritten, with no range check |
| `MockData.EnrollmentStatus` | server/utils/mockData.js:171-179 | `isEnrolled` iff an active matching record exists, and `enrollment` is the first such record or null |
| `MockData.EnrollmentsOf` | server/utils/mockData.js:123-125 | the student's records in insertion order, with no status filter, each kept as many times as it is stored |
| `MockData.AsWrittenKeepsEmbedded` | server/utils/mockData.js:142-152 | every write of the store as written keeps every stored `courseId` an embedded course |
| `MockData.AsWrittenLookupsNeverMatch` | server/utils/mockData.js:134-140 | as written, enroll never reports a duplicate, unenroll and updateProgress always throw, status is always not enrolled |
| `MockData.AsWrittenDoubleEnroll` | server/utils/mockData.js:144-152 | as written, two enrolls in one course both succeed, grow the list by two, and break the unique pair index |
| `MockData.IntendedEnrollKeepsIndex` | server/utils/mockData.js:134-140 | with the corrected comparison, enroll keeps the unique (course, student) index |
| `MockData.IntendedSecondEnrollRefused` | server/utils/mockData.js:134-140 | with the corrected comparison, a second enroll is refused, also after an unenroll |
| `MockData.WorkedExample` | server/utils/mockData.js:128-193 | enroll course1, progress 50, status, unenroll, status: the as-written and the corrected outcomes |
| `MockData.MockStore.constructor` | server/utils/mockData.js:108-109 | the store starts with the sample catalogue and an empty list, and with its invariant: as written, every stored record embeds its course |
| `MockData.MockStore.GetEnrollments` | server/utils/mockData.js:123-125 | the store's `getEnrollments` read is `EnrollmentsOf` on its list |
| `MockData.MockStore.GetEnrollmentStatus` | server/utils/mockData.js:171-179 | the store's `getEnrollmentStatus` read is `EnrollmentStatus` on its list |
| `MockData.MockStore.Enroll` | server/utils/mockData.js:128-154 | the in-place enroll returns and leaves what `EnrollStep` specifies, keeping the invariant |
| `MockData.MockStore.Unenroll` | server/utils/mockData.js:157-168 | the in-place unenroll returns and leaves what `UnenrollStep` specifies, keeping the invariant |
| `MockData.MockStore.UpdateProgress` | server/utils/mockData.js:182-193 | the in-place update returns and leaves what `UpdateProgressStep` specifies, keeping the invariant |
| `EnrollmentSchema.CreateEnrollment` | server/models/Enrollment.js:4-28 | a create stores status active, progress 0, the date, the trimmed student id; valid when that id is non-empty |
| `EnrollmentSchema.UniquePairs` | server/models/Enrollment.js:33-34 | the compound unique index: no two records share a (course, student) pair, whatever their status |
| `EnrollmentSchema.InsertRespectsIndexIff` | server/models/Enrollment.js:33-34 | appending keeps the unique pair index iff no record, dropped or not, holds the pair |
| `EnrollmentSchema.UpdateInPlaceKeepsIndex` | server/models/Enrollment.js:33-34 | changing a record's status or progress keeps the index |
| `CourseSchema.Trim` | server/models/Course.js:7 | the trim setter's result is trimmed and no longer than its input |
| `CourseSchema.TrimIsSlice` | server/models/Course.js:7 | the setter keeps a slice of its input and everything cut off on either side is whitespace |
| `CourseSchema.TrimIdempotent` | server/models/Course.js:7 | trimming twice is trimming once |
| `CourseSchema.ApplySchemaNormalises` | server/models/Course.js:4-43 | stored text fields are trimmed; price defaults to 0 and imageUrl to the fixed URL |
| `CourseSchema.ValidationErrors` | server/models/Course.js:4-39 | no validation message iff the course is valid: title and description required and within 100 and 500 characters, instructor and duration required, category and level from their enumerations |
| `CourseSchema.TrimText` | server/models/Course.js:4-25 | casting an update runs the same trim setters as a create, leaving every text field trimmed |
| `CourseSchema.TrimTextKeepsValid` | server/models/Course.js:4-25 | casting leaves a valid course unchanged |
| `CourseSchema.ValidCourseRoundTrip` | server/models/Course.js:3-46 | a valid course is stored unchanged when created from its own fields |
| `EnrollmentRoutes.DbMine` | server/routes/enrollments.js:27-30 | the database list is the student's non-dropped records, in stored order, each kept as many times as it is stored |
| `EnrollmentRoutes.Live` | server/routes/enrollments.js:83-87 | the database query filter: same course, the demo student, and a status other than dropped |
| `EnrollmentRoutes.DbEnroll` | server/routes/enrollments.js:73-108 | 404 for an unknown course; 400 iff a live record holds the pair; the index error goes to the middleware iff only a dropped one does; otherwise 201 and one new active record |
| `EnrollmentRoutes.DbEnrollFresh` | server/routes/enrollments.js:97-108 | an enroll in a course no record holds answers 201 and appends one live record |
| `EnrollmentRoutes.DbUnenroll` | server/routes/enrollments.js:136-156 | 404 without a live record; otherwise only the first live record becomes dropped and 200 answers `{}` |
| `EnrollmentRoutes.DbProgress` | server/routes/enrollments.js:226-246 | 404 without a live record; otherwise only the first live record's progress changes and 200 answers it |
| `EnrollmentRoutes.DbStatus` | server/routes/enrollments.js:177-189 | `isEnrolled` iff a live record exists, with the first such record |
| `EnrollmentRoutes.Mine` | server/routes/enrollments.js:14-36 | always 200; `count` equals the length of `data`; the fixed student's in-memory records or the database's live ones |
| `EnrollmentRoutes.Falsy` | server/routes/enrollments.js:49 | the `!courseId` guard: the course id is absent or empty |
| `EnrollmentRoutes.Post` | server/routes/enrollments.js:45-112 | a falsy course id is 400 'Course ID is required' and touches no store; an in-memory error is 400 with its message, success 201 with the record; a refusal changes nothing |
| `EnrollmentRoutes.Delete` | server/routes/enrollments.js:117-160 | an in-memory error is 404 with its message, success 200 with `{}`; with a database the database branch decides |
| `EnrollmentRoutes.Status` | server/routes/enrollments.js:165-193 | always 200, `isEnrolled` iff a record was found, and the record or null beside it: the first live database record, or the in-memory store's own status answer |
| `EnrollmentRoutes.Put` | server/routes/enrollments.js:198-250 | progress below 0 or above 100 is 400 before any store access (0 and 100 pass); an in-memory error is 404, success 200 with the record |
| `EnrollmentRoutes.ProgressRejected` | server/routes/enrollments.js:202 | the range guard: a progress below 0 or above 100 |
| `EnrollmentRoutes.PutKeepsProgressInRange` | server/routes/enrollments.js:202-207 | although the store's update has no range check, the route's guard keeps every stored progress in [0, 100] |
| `EnrollmentRoutes.DbEnrollKeepsIndex` | server/routes/enrollments.js:82-100 | a database enroll keeps the unique pair index |
| `EnrollmentRoutes.DbUnenrollKeepsIndex` | server/routes/enrollments.js:136-144 | a database unenroll keeps the unique pair index |
| `EnrollmentRoutes.DbProgressKeepsIndex` | server/routes/enrollments.js:226-234 | a database progress update keeps the unique pair index |
| `EnrollmentRoutes.DbUnenrollHidesCourse` | server/routes/enrollments.js:136-156 | after a database unenroll the course leaves the student's list while its record stays, dropped |
| `EnrollmentRoutes.DbSecondEnrollRefused` | server/routes/enrollments.js:83-94 | with a database a second POST for one course answers 400 and changes nothing |
| `EnrollmentRoutes.DbReenrollAfterDropForwarded` | server/routes/enrollments.js:83-100 | with a database, re-enrolling after an unenroll passes the live check but the dropped record holds the index slot, so the error goes to the middleware |
| `EnrollmentRoutes.MockRoutesAsWritten` | server/routes/enrollments.js:57-71 | as written, two POSTs both answer 201; DELETE and PUT answer 404; status answers not enrolled |
| `EnrollmentRoutes.MockRoutesIntended` | server/routes/enrollments.js:57-71 | with the corrected comparison, the second POST answers 400 'Already enrolled in this course' |
| `EnrollmentRoutes.GetMyEnrollments` | server/routes/enrollments.js:14-40 | the handler answers what `Mine` specifies |
| `EnrollmentRoutes.PostEnrollment` | server/routes/enrollments.js:45-112 | the handler answers and leaves both stores as `Post` specifies |
| `EnrollmentRoutes.DeleteEnrollment` | server/routes/enrollments.js:117-160 | the handler answers and leaves both stores as `Delete` specifies |
| `EnrollmentRoutes.GetStatus` | server/routes/enrollments.js:165-193 | the handler answers what `Status` specifies |
| `EnrollmentRoutes.PutProgress` | server/routes/enrollments.js:198-250 | the handler answers and leaves both stores as `Put` specifies |
| `CourseRoutes.ListCourses` | server/routes/courses.js:10-33 | 200 with the whole list and `count` its length; the sample catalogue without a database |
| `CourseRoutes.MockListHasEightCourses` | server/routes/courses.js:13-20 | without a database the count is 8 |
| `CourseRoutes.CourseAnswer` | server/routes/courses.js:43-55 | 404 'Course not found' iff no course has the id; otherwise 200 with a course that has it |
| `CourseRoutes.GetCourse` | server/routes/courses.js:38-74 | without a database, 404 'Course not found' iff the id is not a sample id, otherwise 200 with the sample course that has it; with one, the stored list decides |
| `CourseRoutes.MockGetCourse` | server/routes/courses.js:43-55 | without a database each sample id answers 200 with its own course |
| `CourseRoutes.PutCourse` | server/routes/courses.js:95-116 | the update's text is trimmed by the schema's setters before validation; an update still invalid goes to the middleware; a missing id is 404 'Course not found'; otherwise only the first course with the id is replaced by the trimmed update |
| `CourseRoutes.PutStoresValid` | server/routes/courses.js:95-116 | a successful update answers and stores a course valid under the schema, and an already valid update as given |
| `CourseRoutes.DeleteCourse` | server/routes/courses.js:121-139 | 404 'Course not found' iff no course has the id; otherwise the first such course is removed, the others kept in order, and 200 answers `{}` |
| `CourseRoutes.DeleteThenGone` | server/routes/courses.js:121-139 | with distinct ids a deleted course reads 404 and deletes again with 404 |
| `CourseRoutes.PutThenGet` | server/routes/courses.js:95-116 | reading after a successful update answers the trimmed update |
| `CourseList.Lower` | client/src/pages/CourseList.jsx:50-52 | lowercasing keeps the length and maps each character |
| `CourseList.LowerIdempotent` | client/src/pages/CourseList.jsx:50-52 | lowercasing twice is lowercasing once |
| `CourseList.Includes` | client/src/pages/CourseList.jsx:50-52 | `includes` holds iff the term occurs as a contiguous block |
| `CourseList.Visible` | client/src/pages/CourseList.jsx:45-68 | the shown courses are an order-preserving subsequence, no longer than the list, holding exactly the courses all three stages keep, each as often as in the list |
| `CourseList.NoFilterKeepsAll` | client/src/pages/CourseList.jsx:49-65 | with an empty term and both selections 'All' every course is shown |
| `CourseList.SelectionsRespected` | client/src/pages/CourseList.jsx:58-65 | a selected category or level is that of every shown course |
| `CourseList.SearchKeepsExactly` | client/src/pages/CourseList.jsx:49-55 | a non-empty search shows a course iff the lowercased term occurs in its lowercased title, description or instructor |
| `CourseList.SuccessiveFiltersAreOneFilter` | client/src/pages/CourseList.jsx:45-68 | the three successive filters equal one filter by the conjunction of the stages |
| `CourseList.CourseListPage.constructor` | client/src/pages/CourseList.jsx:9-15 | the page starts with no courses, an empty term and both selections 'All' |
| `CourseList.CourseListPage.FilterCourses` | client/src/pages/CourseList.jsx:45-68 | `filterCourses` sets the shown list to the single conjunctive filter and changes nothing else |
| `CourseList.CourseListPage.ClearFilters` | client/src/pages/CourseList.jsx:82-86 | resets the state to ('', 'All', 'All'), after which the filter shows every course |
| `EnrollmentsPage.ActiveCount` | client/src/pages/Enrollments.jsx:119 | the active count is at most the total |
| `EnrollmentsPage.ActiveCountExtremes` | client/src/pages/Enrollments.jsx:107-119 | the active count equals the total iff every enrollment is active, and 0 iff none is |
| `EnrollmentsPage.ProgressOf` | client/src/pages/Enrollments.jsx:133 | a missing progress counts as 0, as the fallback to 0 in the sum does |
| `EnrollmentsPage.ProgressSum` | client/src/pages/Enrollments.jsx:133 | the sum, a missing progress counting 0, lies in [0, 100 times the length] when every progress is in range |
| `EnrollmentsPage.RoundHalfUp` | client/src/pages/Enrollments.jsx:133 | the nearest integer to the quotient, halves rounded up |
| `EnrollmentsPage.AverageProgress` | client/src/pages/Enrollments.jsx:132-134 | 0 for an empty list, otherwise the sum over the length rounded half-up |
| `EnrollmentsPage.AverageInRange` | client/src/pages/Enrollments.jsx:132-134 | when every progress is in [0, 100], so is the average |
| `EnrollmentsPage.ProgressOptionsPassGuard` | client/src/pages/Enrollments.jsx:230 | the selector offers the multiples of 10 from 0 to 100, each passing the server's range guard |
| `CourseCard.LevelColor` | client/src/components/CourseCard.jsx:50-61 | Beginner, Intermediate and Advanced get success, warning and danger; any other value, and only those, the primary badge |
| `CourseCard.LevelColorsDistinct` | client/src/components/CourseCard.jsx:50-61 | the three schema levels get three different badges |
| `CourseCard.CategoryColor` | client/src/components/CourseCard.jsx:63-78 | the gray class iff the category is not Programming, Design, Business or Marketing |
| `CourseCard.CategoryColors` | client/src/components/CourseCard.jsx:63-78 | the four coloured categories are told apart; Technology and Other share the gray class |
| `CourseCard.Toggled` | client/src/components/CourseCard.jsx:26-48 | on success the flag flips, the status becoming null after an unenroll and the returned data after an enroll; on failure nothing changes |
| `CourseCard.ToastFor` | client/src/components/CourseCard.jsx:34-45 | a success notice iff the call succeeded, reading 'Successfully unenrolled from course!' when the card was enrolled and 'Successfully enrolled in course!' otherwise; otherwise the answer's error message, or the fallback text when it has none |
| `CourseCard.ToggleTwiceRestores` | client/src/components/CourseCard.jsx:26-48 | two successful presses from not enrolled end not enrolled with status null |
| `CourseCard.CourseCardState.constructor` | client/src/components/CourseCard.jsx:7-9 | the card starts not enrolled, not loading, with a null status |
| `CourseCard.CourseCardState.CheckEnrollmentStatus` | client/src/components/CourseCard.jsx:16-24 | a status answer overwrites both fields; a failed query changes nothing |
| `CourseCard.CourseCardState.HandleEnrollment` | client/src/components/CourseCard.jsx:26-48 | sends unenroll iff enrolled, applies `Toggled`, and `isLoading` is false at the end of either path |

## Left out

- Rendering, styling, toasts' display, the `useEffect` fetch plumbing, the header and the page switch of the client app: they hold no decisions.
- The HTTP client in client/src/services/api.js: pure I/O. The answers of its calls are parameters of the client methods.
- Server setup (security headers, rate limiting, CORS, body parsers, listening), the database connection and the seed script: I/O and configuration.
- Mongoose internals: id casting, `populate` beyond attaching the course to a created record, the atomicity of `findOneAndUpdate`, and how the unique index is enforced. The database is a pair of sequences whose queries are the filters the handlers write.
- The error-handler middleware is not part of this model; an exception passed to `next` is the `Forwarded` response.
- `POST /api/courses`: its outcome is the schema's validation, modelled by `CourseSchema.ValidationErrors` and `CourseSchema.ApplySchema`, and the middleware's answer.
- `CourseRoutes.PutCourse`: models an update that carries every field; a partial update validated field by field is not modelled.
- `CourseRoutes.ListCourses`: the database list is taken as stored; the sort by creation date is not modelled, because creation timestamps are not modelled.
- The `_id` of an enrollment is the number `now` rather than the string `enrollment_<now>`, and the enrollment date is the same number; the creation and update timestamps of courses and enrollments are not modelled.
- The `formattedEnrollmentDate` virtual: locale-dependent date formatting.
- `EnrollmentsPage.AverageProgress`: uses integer round-half-up on integer progress instead of floating-point division and `Math.round`.
- `EnrollmentRoutes.Put`: progress is an integer; a missing or non-numeric progress, which slips past the JavaScript comparison, is not modelled.
- `CourseList.Lower`: lowercases ASCII letters only, not the full Unicode `toLowerCase`.
- `CourseSchema.Trim`: removes ASCII whitespace, no-break space and the byte-order mark, not every Unicode space character.
- `CourseSchema.ValidCourse`: the title and description limits count characters (Unicode scalar values), while JavaScript's `maxlength` counts UTF-16 code units; a title of 99 characters holding two characters outside the Basic Multilingual Plane is accepted here and refused by the schema's `maxlength` validator.
- Course prices are integers, while the schema's `Number` may hold a fraction; fractional prices are not modelled, as no rule of the core depends on them.
- `EnrollmentSchema.ValidEnrollment`: the schema's required course reference and status enumeration hold by construction of the datatypes.
- The race between two concurrent enroll requests that both pass the duplicate check: concurrency is out of scope.

## Findings

| source | as written | input that shows it | evidently intended | confidence | as-written member | corrected member |
|---|---|---|---|---|---|---|
| server/utils/mockData.js:142-150 | the record literal names `courseId` twice; the later `courseId: course` keeps the course object, so every later `e.courseId === courseId` compares an object with a string and is false | enroll in course1 twice for one student without a database: both succeed, and unenroll then answers 'Enrollment not found' | the lookups find the record by its course's id, so a second enroll is refused and unenroll, status and progress find the record | high (not executed) | `MockData.AsWrittenDoubleEnroll` | `MockData.IntendedSecondEnrollRefused` |
