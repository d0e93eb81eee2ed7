/** The catalogue page's filter: a case-insensitive search over title,
    description and instructor, then a category selection, then a level
    selection, each skipped when it is empty or 'All'; and the reset of the
    three filter fields. */
module CourseList {
  import opened ArrayOps
  import opened CourseSchema

  const All := "All"

  /** `toLowerCase` on one character, restricted to ASCII letters. */
  function LowerChar(c: char): char {
    if 'A' <= c <= 'Z' then (c as int + 32) as char else c
  }

  function Lower(s: string): (r: string)
    ensures |r| == |s|
    ensures forall i :: 0 <= i < |s| ==> r[i] == LowerChar(s[i])
  {
    if |s| == 0 then [] else [LowerChar(s[0])] + Lower(s[1..])
  }

  /** Lowercasing twice is lowercasing once. */
  lemma {:induction false} LowerIdempotent(s: string)
    ensures Lower(Lower(s)) == Lower(s)
  {
    var once := Lower(s);
    var twice := Lower(once);
    forall i | 0 <= i < |s| ensures twice[i] == once[i] {
      assert once[i] == LowerChar(s[i]);
    }
  }

  /** `t` occurs in `s` starting at index `i`. */
  predicate OccursAt(s: string, t: string, i: int) {
    0 <= i <= |s| - |t| && s[i..i + |t|] == t
  }

  /** An occurrence in the tail is an occurrence one place later. */
  lemma OccursInTail(s: string, t: string)
    requires |s| > 0
    ensures forall i :: 0 <= i ==> (OccursAt(s[1..], t, i) <==> OccursAt(s, t, i + 1))
  {
    forall i | 0 <= i ensures OccursAt(s[1..], t, i) <==> OccursAt(s, t, i + 1) {
      if 0 <= i <= |s| - 1 - |t| {
        assert s[1..][i..i + |t|] == s[i + 1..i + 1 + |t|];
      }
    }
  }

  /** `String.prototype.includes`: `t` occurs in `s` as a contiguous block. */
  function Includes(s: string, t: string): (r: bool)
    ensures r <==> exists i :: OccursAt(s, t, i)
    decreases |s|
  {
    if |t| > |s| then false
    else if s[..|t|] == t then assert OccursAt(s, t, 0); true
    else
      OccursInTail(s, t);
      assert forall i :: OccursAt(s, t, i) ==> i == 0 || OccursAt(s[1..], t, i - 1);
      Includes(s[1..], t)
  }

  /** The search predicate: the lowercased term occurs in the lowercased
      title, description or instructor. */
  predicate MatchesSearch(c: Course, term: string) {
    var t := Lower(term);
    Includes(Lower(c.title), t) || Includes(Lower(c.description), t) || Includes(Lower(c.instructor), t)
  }

  /** The three stages, each passing everything when it is switched off. */
  predicate SearchStage(c: Course, term: string) {
    term == "" || MatchesSearch(c, term)
  }

  predicate CategoryStage(c: Course, category: string) {
    category == All || c.category == category
  }

  predicate LevelStage(c: Course, level: string) {
    level == All || c.level == level
  }

  predicate Keeps(c: Course, term: string, category: string, level: string) {
    SearchStage(c, term) && CategoryStage(c, category) && LevelStage(c, level)
  }

  /** The reference result: one filter by the conjunction of the stages. */
  function Visible(courses: seq<Course>, term: string, category: string, level: string): (r: seq<Course>)
    ensures IsSubsequence(r, courses)
    ensures |r| <= |courses|
    ensures forall i :: 0 <= i < |r| ==> Keeps(r[i], term, category, level)
    ensures forall i :: 0 <= i < |courses| && Keeps(courses[i], term, category, level) ==> courses[i] in r
    ensures forall c :: multiset(r)[c] == (if Keeps(c, term, category, level) then multiset(courses)[c] else 0)
  {
    FilterCounts(courses, (c: Course) => Keeps(c, term, category, level));
    Filter(courses, (c: Course) => Keeps(c, term, category, level))
  }

  /** With an empty term and both selections 'All', every course is shown. */
  lemma NoFilterKeepsAll(courses: seq<Course>)
    ensures Visible(courses, "", All, All) == courses
  {
    FilterKeepsAll(courses, (c: Course) => Keeps(c, "", All, All));
  }

  /** A selected category or level is the category or level of every shown
      course. */
  lemma SelectionsRespected(courses: seq<Course>, term: string, category: string, level: string)
    ensures category != All ==> forall i :: 0 <= i < |Visible(courses, term, category, level)| ==>
              Visible(courses, term, category, level)[i].category == category
    ensures level != All ==> forall i :: 0 <= i < |Visible(courses, term, category, level)| ==>
              Visible(courses, term, category, level)[i].level == level
  {
  }

  /** A non-empty search with both selections 'All' shows a course exactly
      when the lowercased term occurs in its lowercased title, description
      or instructor. */
  lemma SearchKeepsExactly(courses: seq<Course>, term: string, i: int)
    requires term != "" && 0 <= i < |courses|
    ensures courses[i] in Visible(courses, term, All, All) <==> MatchesSearch(courses[i], term)
  {
    var r := Visible(courses, term, All, All);
    if courses[i] in r {
      var j :| 0 <= j < |r| && r[j] == courses[i];
      assert Keeps(r[j], term, All, All);
    }
  }

  /** One filter step of `filterCourses` each. */
  function BySearch(s: seq<Course>, term: string): seq<Course> {
    Filter(s, (c: Course) => MatchesSearch(c, term))
  }

  function ByCategory(s: seq<Course>, category: string): seq<Course> {
    Filter(s, (c: Course) => c.category == category)
  }

  function ByLevel(s: seq<Course>, level: string): seq<Course> {
    Filter(s, (c: Course) => c.level == level)
  }

  /** The three successive filters, each applied only when switched on,
      give the single filter by the conjunction of the stages. */
  lemma SuccessiveFiltersAreOneFilter(courses: seq<Course>, term: string, category: string, level: string)
    ensures var f1 := if term != "" then BySearch(courses, term) else courses;
            var f2 := if category != All then ByCategory(f1, category) else f1;
            var f3 := if level != All then ByLevel(f2, level) else f2;
            f3 == Visible(courses, term, category, level)
  {
    var search := (c: Course) => SearchStage(c, term);
    var inCategory := (c: Course) => CategoryStage(c, category);
    var atLevel := (c: Course) => LevelStage(c, level);
    var f1 := if term != "" then BySearch(courses, term) else courses;
    if term != "" {
      FilterCongruent(courses, (c: Course) => MatchesSearch(c, term), search);
    } else {
      FilterKeepsAll(courses, search);
    }
    var f2 := if category != All then ByCategory(f1, category) else f1;
    if category != All {
      FilterCongruent(f1, (c: Course) => c.category == category, inCategory);
    } else {
      FilterKeepsAll(f1, inCategory);
    }
    var f3 := if level != All then ByLevel(f2, level) else f2;
    if level != All {
      FilterCongruent(f2, (c: Course) => c.level == level, atLevel);
    } else {
      FilterKeepsAll(f2, atLevel);
    }
    var searchAndCategory := (c: Course) => SearchStage(c, term) && CategoryStage(c, category);
    FilterTwice(courses, search, inCategory, searchAndCategory);
    FilterTwice(courses, searchAndCategory, atLevel, (c: Course) => Keeps(c, term, category, level));
  }

  /** The page state the filter reads and writes. */
  class CourseListPage {
    var courses: seq<Course>
    var filteredCourses: seq<Course>
    var searchTerm: string
    var selectedCategory: string
    var selectedLevel: string

    constructor()
      ensures courses == [] && filteredCourses == []
      ensures searchTerm == "" && selectedCategory == All && selectedLevel == All
    {
      courses := [];
      filteredCourses := [];
      searchTerm := "";
      selectedCategory := All;
      selectedLevel := All;
    }

    /** `filterCourses`: three successive filters, which together equal the
        single filter by their conjunction. */
    method FilterCourses()
      modifies this
      ensures filteredCourses == Visible(courses, searchTerm, selectedCategory, selectedLevel)
      ensures courses == old(courses) && searchTerm == old(searchTerm)
      ensures selectedCategory == old(selectedCategory) && selectedLevel == old(selectedLevel)
    {
      var filtered := courses;
      if searchTerm != "" {
        filtered := BySearch(filtered, searchTerm);
      }
      if selectedCategory != All {
        filtered := ByCategory(filtered, selectedCategory);
      }
      if selectedLevel != All {
        filtered := ByLevel(filtered, selectedLevel);
      }
      SuccessiveFiltersAreOneFilter(courses, searchTerm, selectedCategory, selectedLevel);
      filteredCourses := filtered;
    }

    /** `clearFilters`: the three filter fields back to their initial
        values, after which the filter that reruns shows every course. */
    method ClearFilters()
      modifies this
      ensures searchTerm == "" && selectedCategory == All && selectedLevel == All
      ensures courses == old(courses) && filteredCourses == old(filteredCourses)
      ensures Visible(courses, searchTerm, selectedCategory, selectedLevel) == courses
    {
      searchTerm := "";
      selectedCategory := All;
      selectedLevel := All;
      NoFilterKeepsAll(courses);
    }
  }
}
