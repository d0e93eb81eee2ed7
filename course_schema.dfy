/** The course record and the field constraints its schema declares:
    required and trimmed text fields, length limits, the category and level
    enumerations, and the defaults for price and image URL. */
module CourseSchema {
  import opened ArrayOps

  /** A stored course. `id` is the record's `_id`; the creation and update
      timestamps are not modelled. */
  datatype Course = Course(
    id: string,
    title: string,
    description: string,
    instructor: string,
    duration: string,
    category: string,
    level: string,
    price: int,
    imageUrl: string)

  /** The input of a create: the text fields as given, and the two fields
      that have defaults, possibly absent. */
  datatype CourseDraft = CourseDraft(
    title: string,
    description: string,
    instructor: string,
    duration: string,
    category: string,
    level: string,
    price: Option<int>,
    imageUrl: Option<string>)

  const TitleMaxLength := 100
  const DescriptionMaxLength := 500
  const Categories: seq<string> := ["Programming", "Design", "Business", "Marketing", "Technology", "Other"]
  const Levels: seq<string> := ["Beginner", "Intermediate", "Advanced"]
  const DefaultPrice := 0
  /** The image URLs of the schema default and of the sample courses all
      point at one photo host with one query string; they differ only in
      the photo id. The fixed text is split into short pieces, which the
      verifier handles more cheaply than one long literal. */
  function UnsplashUrl(photo: string): string {
    "https://" + "images.u" + "nsplash." + "com/phot" + "o-" + photo
    + "?ixlib=r" + "b-4.0.3&" + "ixid=M3w" + "xMjA3fDB" + "8MHxwaG9"
    + "0by1wYWd" + "lfHx8fGV" + "ufDB8fHx" + "8fA%3D%3" + "D&auto=f"
    + "ormat&fi" + "t=crop&w" + "=2070&q=" + "80"
  }

  const DefaultImageUrl := UnsplashUrl("1516321318423-f06f85e504b3")

  /** The characters `String.prototype.trim` removes, restricted to the
      ASCII ones plus no-break space and the byte-order mark. */
  predicate IsWhitespace(c: char) {
    c == ' ' || c == '\t' || c == '\n' || c == '\r' || c == '\U{0B}' || c == '\U{0C}'
    || c == '\U{A0}' || c == '\U{FEFF}'
  }

  predicate IsTrimmed(s: string) {
    s == [] || (!IsWhitespace(s[0]) && !IsWhitespace(s[|s| - 1]))
  }

  /** Drops the leading whitespace: the result is a suffix of `s` that does
      not start with whitespace, and everything dropped is whitespace. */
  function TrimStart(s: string): (r: string)
    ensures |r| <= |s| && r == s[|s| - |r|..]
    ensures r == [] || !IsWhitespace(r[0])
    ensures forall i :: 0 <= i < |s| - |r| ==> IsWhitespace(s[i])
    decreases |s|
  {
    if |s| > 0 && IsWhitespace(s[0]) then TrimStart(s[1..]) else s
  }

  /** Drops the trailing whitespace: the result is a prefix of `s` that does
      not end with whitespace, and everything dropped is whitespace. */
  function TrimEnd(s: string): (r: string)
    ensures |r| <= |s| && r == s[..|r|]
    ensures r == [] || !IsWhitespace(r[|r| - 1])
    ensures forall i :: |r| <= i < |s| ==> IsWhitespace(s[i])
    decreases |s|
  {
    if |s| > 0 && IsWhitespace(s[|s| - 1]) then TrimEnd(s[..|s| - 1]) else s
  }

  /** The `trim: true` setter (TrimIsSlice states which slice it keeps). */
  function Trim(s: string): (r: string)
    ensures IsTrimmed(r)
    ensures |r| <= |s|
  {
    TrimEnd(TrimStart(s))
  }

  /** `r` is `s[a..b]` and everything of `s` outside it is whitespace. */
  predicate TrimmedSlice(s: string, r: string, a: int, b: int) {
    && 0 <= a <= b <= |s| && r == s[a..b]
    && (forall i :: 0 <= i < a ==> IsWhitespace(s[i]))
    && (forall i :: b <= i < |s| ==> IsWhitespace(s[i]))
  }

  /** The setter keeps the slice of `s` left once the whitespace on both
      sides is cut off; as that slice is trimmed, it is the only one. */
  lemma TrimIsSlice(s: string)
    ensures exists a, b :: TrimmedSlice(s, Trim(s), a, b)
  {
    var t := TrimStart(s);
    var r := TrimEnd(t);
    var a := |s| - |t|;
    var b := a + |r|;
    assert r == s[a..b] by {
      assert t == s[a..] && r == t[..|r|];
    }
    assert forall i :: b <= i < |s| ==> IsWhitespace(s[i]) by {
      forall i | b <= i < |s|
        ensures IsWhitespace(s[i])
      {
        assert s[i] == t[i - a];
      }
    }
    assert TrimmedSlice(s, Trim(s), a, b);
  }

  /** Trimming changes nothing in a string that is already trimmed, so the
      setter is idempotent. */
  lemma TrimFixesTrimmed(s: string)
    requires IsTrimmed(s)
    ensures Trim(s) == s
  {
    assert TrimStart(s) == s;
  }

  lemma TrimIdempotent(s: string)
    ensures Trim(Trim(s)) == Trim(s)
  {
    TrimFixesTrimmed(Trim(s));
  }

  /** What a create stores for a draft: the trim setters applied and the
      defaults filled in. Validation is separate (ValidationErrors). */
  function ApplySchema(id: string, d: CourseDraft): Course {
    Course(id, Trim(d.title), Trim(d.description), Trim(d.instructor), Trim(d.duration),
           d.category, d.level,
           match d.price case Some(p) => p case None => DefaultPrice,
           match d.imageUrl case Some(u) => u case None => DefaultImageUrl)
  }

  /** The stored text fields are trimmed and the defaults are the schema's. */
  lemma ApplySchemaNormalises(id: string, d: CourseDraft)
    ensures var c := ApplySchema(id, d);
      && IsTrimmed(c.title) && IsTrimmed(c.description)
      && IsTrimmed(c.instructor) && IsTrimmed(c.duration)
      && (d.price.None? ==> c.price == 0)
      && (d.imageUrl.None? ==> c.imageUrl == DefaultImageUrl)
      && (d.price.Some? ==> c.price == d.price.value)
      && (d.imageUrl.Some? ==> c.imageUrl == d.imageUrl.value)
  {
  }

  /** What casting an update does to a whole course: the trim setters run
      on the four text fields, exactly as when a course is created from
      the same fields, and nothing else changes. */
  function TrimText(c: Course): (r: Course)
    ensures r == ApplySchema(c.id, CourseDraft(c.title, c.description, c.instructor, c.duration,
                                               c.category, c.level, Some(c.price), Some(c.imageUrl)))
    ensures IsTrimmed(r.title) && IsTrimmed(r.description) && IsTrimmed(r.instructor) && IsTrimmed(r.duration)
  {
    c.(title := Trim(c.title), description := Trim(c.description),
       instructor := Trim(c.instructor), duration := Trim(c.duration))
  }

  /** Casting keeps a valid course as it is. */
  lemma TrimTextKeepsValid(c: Course)
    requires ValidCourse(c)
    ensures TrimText(c) == c
  {
    ValidCourseRoundTrip(c);
  }

  /** A course the schema accepts: required text present and trimmed,
      within its length limit, and category and level from the enumerations. */
  predicate ValidCourse(c: Course) {
    && |c.title| > 0 && IsTrimmed(c.title) && |c.title| <= TitleMaxLength
    && |c.description| > 0 && IsTrimmed(c.description) && |c.description| <= DescriptionMaxLength
    && |c.instructor| > 0 && IsTrimmed(c.instructor)
    && |c.duration| > 0 && IsTrimmed(c.duration)
    && c.category in Categories
    && c.level in Levels
  }

  function EnumMessage(value: string, path: string): string {
    "`" + value + "` is not a valid enum value for path `" + path + "`."
  }

  /** The message of each path's first failing validator, if any. */
  function TitleErrors(title: string): (errs: seq<string>)
    ensures |errs| <= 1 && (errs == [] <==> 0 < |title| <= TitleMaxLength)
  {
    if |title| == 0 then ["Course title is required"]
    else if |title| > TitleMaxLength then ["Course title cannot exceed 100 characters"]
    else []
  }

  function DescriptionErrors(description: string): (errs: seq<string>)
    ensures |errs| <= 1 && (errs == [] <==> 0 < |description| <= DescriptionMaxLength)
  {
    if |description| == 0 then ["Course description is required"]
    else if |description| > DescriptionMaxLength then ["Course description cannot exceed 500 characters"]
    else []
  }

  function RequiredErrors(value: string, message: string): (errs: seq<string>)
    ensures |errs| <= 1 && (errs == [] <==> |value| > 0)
  {
    if |value| == 0 then [message] else []
  }

  function EnumErrors(value: string, allowed: seq<string>, path: string, required: string): (errs: seq<string>)
    requires "" !in allowed
    ensures |errs| <= 1 && (errs == [] <==> value in allowed)
  {
    if |value| == 0 then [required]
    else if value !in allowed then [EnumMessage(value, path)]
    else []
  }

  /** The messages validation reports, one per failing path in schema
      order; a path reports its first failing validator only (required
      before maxlength). The text fields are checked after trimming. */
  function ValidationErrors(c: Course): (errs: seq<string>)
    requires IsTrimmed(c.title) && IsTrimmed(c.description) && IsTrimmed(c.instructor) && IsTrimmed(c.duration)
    ensures errs == [] <==> ValidCourse(c)
    ensures |errs| <= 6
  {
    TitleErrors(c.title)
    + DescriptionErrors(c.description)
    + RequiredErrors(c.instructor, "Instructor name is required")
    + RequiredErrors(c.duration, "Course duration is required")
    + EnumErrors(c.category, Categories, "category", "Course category is required")
    + EnumErrors(c.level, Levels, "level", "Course level is required")
  }

  /** A valid course is a fixed point of the schema: creating it again from
      its own fields stores the same record. */
  lemma ValidCourseRoundTrip(c: Course)
    requires ValidCourse(c)
    ensures ApplySchema(c.id, CourseDraft(c.title, c.description, c.instructor, c.duration,
                                          c.category, c.level, Some(c.price), Some(c.imageUrl))) == c
  {
    TrimFixesTrimmed(c.title);
    TrimFixesTrimmed(c.description);
    TrimFixesTrimmed(c.instructor);
    TrimFixesTrimmed(c.duration);
  }
}
