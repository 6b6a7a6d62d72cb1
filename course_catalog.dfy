/** The course catalogue over the course provider: a case-insensitive
    search, a level filter, a sort order and the enroll button. */
module CourseCatalog {
  import opened Wrappers
  import opened Seqs
  import opened Text
  import opened Sorting
  import opened Catalog
  import opened Routes
  import CC = CourseContext

  /** The level choice that lets every course through. */
  const AllLevels := "all"

  /** The term occurs, ignoring case, in the title, the description or a tag. */
  predicate MatchesSearch(c: Course, term: string) {
    IncludesIgnoringCase(c.title, term) || IncludesIgnoringCase(c.description, term)
    || exists i :: 0 <= i < |c.tags| && IncludesIgnoringCase(c.tags[i], term)
  }

  predicate MatchesLevel(c: Course, level: string) {
    level == AllLevels || c.level == level
  }

  function Kept(term: string, level: string): Course -> bool {
    (c: Course) => MatchesSearch(c, term) && MatchesLevel(c, level)
  }

  /** The numbers the sorts compare. The comparators subtract them with no
      fallback, so one missing number makes a comparison NaN, which `sort`
      reads as "equal" whatever the other side is; the comparator is then
      inconsistent and the order is left to the engine. These read a missing
      number as 0 so that `FilteredCourses` is one of the possible orders;
      the lemmas state an order only where `ComparedPresent` holds. */
  function Students(c: Course): real {
    c.students.GetOr(0) as real
  }

  function Rating(c: Course): real {
    c.rating.GetOr(0.0)
  }

  function Price(c: Course): real {
    c.price.GetOr(0.0)
  }

  /** The ascending key each sort order compares: most students first for
      "popular", best rating first for "rating", the latest `joinDate` first
      for "newest", cheapest first for "price"; any other choice keeps the
      filtered order. `joinedAt` is the time `new Date(c.joinDate || 0)`
      stands for. */
  function SortKey(sortBy: string, joinedAt: Course -> real): Option<Course -> real> {
    if sortBy == "popular" then Some((c: Course) => -Students(c))
    else if sortBy == "rating" then Some((c: Course) => -Rating(c))
    else if sortBy == "newest" then Some((c: Course) => -joinedAt(c))
    else if sortBy == "price" then Some((c: Course) => Price(c))
    else None
  }

  /** Every course in `cs` carries the number the chosen sort compares
      (the join date has its own `|| 0` and is always comparable). */
  predicate ComparedPresent(cs: seq<Course>, sortBy: string) {
    (sortBy == "popular" ==> forall i :: 0 <= i < |cs| ==> cs[i].students.Some?)
    && (sortBy == "rating" ==> forall i :: 0 <= i < |cs| ==> cs[i].rating.Some?)
    && (sortBy == "price" ==> forall i :: 0 <= i < |cs| ==> cs[i].price.Some?)
  }

  /** `filteredCourses`. */
  function FilteredCourses(courses: seq<Course>, term: string, level: string, sortBy: string,
                           joinedAt: Course -> real): seq<Course> {
    var kept := Filter(courses, Kept(term, level));
    var key := SortKey(sortBy, joinedAt);
    if key.Some? then SortBy(kept, key.value) else kept
  }

  /** The listing holds exactly the courses matching both the search and the
      level, each as often as in the catalogue, whatever the comparator does;
      when every compared number is present, courses that compare equal keep
      their catalogue order, and an unknown sort choice keeps that order
      throughout. */
  lemma FilteredCoursesSpec(courses: seq<Course>, term: string, level: string, sortBy: string,
                            joinedAt: Course -> real)
    ensures var r := FilteredCourses(courses, term, level, sortBy, joinedAt);
      multiset(r) == multiset(Filter(courses, Kept(term, level)))
      && (forall c :: c in r <==> c in courses && MatchesSearch(c, term) && MatchesLevel(c, level))
      && (SortKey(sortBy, joinedAt).Some? && ComparedPresent(Filter(courses, Kept(term, level)), sortBy) ==>
            forall k :: WithKey(r, SortKey(sortBy, joinedAt).value, k)
                        == WithKey(Filter(courses, Kept(term, level)), SortKey(sortBy, joinedAt).value, k))
      && (SortKey(sortBy, joinedAt).None? ==> r == Filter(courses, Kept(term, level)))
  {
    var kept := Filter(courses, Kept(term, level));
    var r := FilteredCourses(courses, term, level, sortBy, joinedAt);
    FilterMembers(courses, Kept(term, level));
    var key := SortKey(sortBy, joinedAt);
    if key.Some? {
      SortByCorrect(kept, key.value);
      assert forall c :: c in r <==> c in multiset(r);
      assert forall c :: c in kept <==> c in multiset(kept);
    }
  }

  /** When every compared number is present, the listing is ordered as the
      sort choice says: most students, best rating or latest join date
      first, or cheapest first. */
  lemma FilteredCoursesOrder(courses: seq<Course>, term: string, level: string, sortBy: string,
                             joinedAt: Course -> real)
    requires ComparedPresent(Filter(courses, Kept(term, level)), sortBy)
    ensures var r := FilteredCourses(courses, term, level, sortBy, joinedAt);
      (sortBy == "popular" ==> forall i, j :: 0 <= i < j < |r| ==> Students(r[i]) >= Students(r[j]))
      && (sortBy == "rating" ==> forall i, j :: 0 <= i < j < |r| ==> Rating(r[i]) >= Rating(r[j]))
      && (sortBy == "newest" ==> forall i, j :: 0 <= i < j < |r| ==> joinedAt(r[i]) >= joinedAt(r[j]))
      && (sortBy == "price" ==> forall i, j :: 0 <= i < j < |r| ==> Price(r[i]) <= Price(r[j]))
  {
    var kept := Filter(courses, Kept(term, level));
    var key := SortKey(sortBy, joinedAt);
    if key.Some? {
      SortBySorted(kept, key.value);
    }
  }

  /** The empty state shows exactly when no catalogue course matches both the
      search and the level. */
  lemma EmptyStateIffNoMatch(courses: seq<Course>, term: string, level: string, sortBy: string,
                             joinedAt: Course -> real)
    ensures |FilteredCourses(courses, term, level, sortBy, joinedAt)| == 0
      <==> forall c :: c in courses ==> !(MatchesSearch(c, term) && MatchesLevel(c, level))
  {
    var r := FilteredCourses(courses, term, level, sortBy, joinedAt);
    FilteredCoursesSpec(courses, term, level, sortBy, joinedAt);
    if |r| != 0 {
      assert r[0] in r;
    }
  }

  lemma EmptyTermMatches(c: Course)
    ensures MatchesSearch(c, "")
  {
    assert ToLower("") == "";
    assert StartsWith(ToLower(c.title), "");
  }

  /** With the empty search and every level, a course is hidden by nothing. */
  lemma ClearedFiltersShowAll(courses: seq<Course>, sortBy: string, joinedAt: Course -> real)
    ensures multiset(FilteredCourses(courses, "", AllLevels, sortBy, joinedAt)) == multiset(courses)
  {
    forall i | 0 <= i < |courses|
      ensures Kept("", AllLevels)(courses[i])
    {
      EmptyTermMatches(courses[i]);
    }
    FilterAllOrNone(courses, Kept("", AllLevels));
    var key := SortKey(sortBy, joinedAt);
    if key.Some? {
      SortByPermutes(courses, key.value);
    }
  }

  /** What the card's button does, as written: it always enrolls, also on
      a course already enrolled where it reads "Continue", and then opens the
      course page. */
  function CourseButtonAsWritten(courses: seq<Course>, course: Course): (seq<Course>, string) {
    (CC.UpdateCourses(courses, course.id, CC.EnrollCourse), CourseRoute(course.id))
  }

  /** On an enrolled course at 60%, "Continue" wipes the shown progress. */
  lemma ContinueResetsProgress()
    ensures var c := Course("c1", "T", "D", "Beginner", [], None, None, None, true, Some(60), false, []);
      c.isEnrolled && CourseButtonAsWritten([c], c).0[0].progress == Some(0)
  {
  }

  /** The button as its label promises: "Continue" only opens the course
      page, "Enroll" enrolls and then opens it. */
  function CourseButton(courses: seq<Course>, course: Course): (r: (seq<Course>, string))
  {
    if course.isEnrolled then (courses, CourseRoute(course.id))
    else (CC.UpdateCourses(courses, course.id, CC.EnrollCourse), CourseRoute(course.id))
  }

  /** The corrected button leaves an enrolled course's progress alone, agrees
      with the written one on courses not yet enrolled, and opens the course
      page either way. */
  lemma CourseButtonSpec(courses: seq<Course>, course: Course)
    ensures CourseButton(courses, course).1 == CourseRoute(course.id)
    ensures course.isEnrolled ==> CourseButton(courses, course).0 == courses
    ensures !course.isEnrolled ==> CourseButton(courses, course) == CourseButtonAsWritten(courses, course)
    ensures forall i :: 0 <= i < |courses| && courses[i].id == course.id ==>
      CourseButton(courses, course).0[i].isEnrolled
      || (course.isEnrolled && CourseButton(courses, course).0[i] == courses[i])
  {
  }

  class CatalogPage {
    const provider: CC.CourseProvider

    constructor(provider: CC.CourseProvider)
      ensures this.provider == provider
    {
      this.provider := provider;
    }

    /** `handleEnroll`, the "Enroll" button: enroll, then open the course. */
    method HandleEnroll(courseId: string) returns (target: string)
      modifies provider
      requires provider.Valid()
      ensures provider.Valid()
      ensures provider.State() == old(provider.State()).(courses := CC.UpdateCourses(old(provider.courses), courseId, CC.EnrollCourse))
      ensures target == CourseRoute(courseId)
    {
      provider.EnrollInCourse(courseId);
      target := CourseRoute(courseId);
    }

    /** The card's button, with "Continue" only opening the course. */
    method HandleCourseButton(course: Course) returns (target: string)
      modifies provider
      requires provider.Valid()
      ensures provider.Valid()
      ensures provider.State() == old(provider.State()).(courses := CourseButton(old(provider.courses), course).0)
      ensures target == CourseButton(old(provider.courses), course).1
    {
      if course.isEnrolled {
        target := CourseRoute(course.id);
      } else {
        target := HandleEnroll(course.id);
      }
    }
  }
}
