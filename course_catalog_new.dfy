/** The database-backed course catalogue: a search over title and
    description, the level filter, three sort orders, and an enroll button
    that needs a signed-in user and reports a failed insert. */
module CourseCatalogNew {
  import opened Wrappers
  import opened Seqs
  import opened Text
  import opened Sorting
  import opened Catalog
  import opened Routes
  import opened Backend
  import CU = CourseUtils
  import CourseCatalog

  /** The term occurs, ignoring case, in the title or the description; tags
      are not searched. */
  predicate MatchesSearch(c: Course, term: string) {
    IncludesIgnoringCase(c.title, term) || IncludesIgnoringCase(c.description, term)
  }

  function Kept(term: string, level: string): Course -> bool {
    (c: Course) => MatchesSearch(c, term) && CourseCatalog.MatchesLevel(c, level)
  }

  /** The ascending key of each sort order: `(b.students || 0) -
      (a.students || 0)` for "popular", likewise the rating for "rating",
      and the creation time for "newest", all descending; `createdAt` is
      the time `new Date(c.created_at || 0)` stands for. Any other choice
      keeps the filtered order. */
  function SortKey(sortBy: string, createdAt: Course -> real): Option<Course -> real> {
    if sortBy == "popular" then Some((c: Course) => -CourseCatalog.Students(c))
    else if sortBy == "rating" then Some((c: Course) => -CourseCatalog.Rating(c))
    else if sortBy == "newest" then Some((c: Course) => -createdAt(c))
    else None
  }

  /** `filteredCourses`. */
  function FilteredCourses(courses: seq<Course>, term: string, level: string, sortBy: string,
                           createdAt: Course -> real): seq<Course> {
    var kept := Filter(courses, Kept(term, level));
    var key := SortKey(sortBy, createdAt);
    if key.Some? then SortBy(kept, key.value) else kept
  }

  /** The listing holds exactly the courses matching the search and the
      level, each as often as in the catalogue; "popular" and "rating" are
      descending with a missing value counted as 0; ties keep their order. */
  lemma FilteredCoursesSpec(courses: seq<Course>, term: string, level: string, sortBy: string,
                            createdAt: Course -> real)
    ensures var r := FilteredCourses(courses, term, level, sortBy, createdAt);
      multiset(r) == multiset(Filter(courses, Kept(term, level)))
      && (forall c :: c in r <==> c in courses && MatchesSearch(c, term) && CourseCatalog.MatchesLevel(c, level))
      && (sortBy == "popular" ==> forall i, j :: 0 <= i < j < |r| ==>
            CourseCatalog.Students(r[i]) >= CourseCatalog.Students(r[j]))
      && (sortBy == "rating" ==> forall i, j :: 0 <= i < j < |r| ==>
            CourseCatalog.Rating(r[i]) >= CourseCatalog.Rating(r[j]))
      && (sortBy == "newest" ==> forall i, j :: 0 <= i < j < |r| ==> createdAt(r[i]) >= createdAt(r[j]))
      && (SortKey(sortBy, createdAt).Some? ==>
            forall k :: WithKey(r, SortKey(sortBy, createdAt).value, k)
                        == WithKey(Filter(courses, Kept(term, level)), SortKey(sortBy, createdAt).value, k))
      && (SortKey(sortBy, createdAt).None? ==> r == Filter(courses, Kept(term, level)))
  {
    var kept := Filter(courses, Kept(term, level));
    var r := FilteredCourses(courses, term, level, sortBy, createdAt);
    FilterMembers(courses, Kept(term, level));
    var key := SortKey(sortBy, createdAt);
    if key.Some? {
      SortByCorrect(kept, key.value);
      assert forall c :: c in r <==> c in multiset(r);
      assert forall c :: c in kept <==> c in multiset(kept);
    }
  }

  /** A course the older catalogue finds only through a tag is not found
      here: the search of this page is the narrower one. */
  lemma SearchIsNarrower(c: Course, term: string)
    ensures MatchesSearch(c, term) ==> CourseCatalog.MatchesSearch(c, term)
    ensures !MatchesSearch(c, term) && CourseCatalog.MatchesSearch(c, term) ==>
      exists i :: 0 <= i < |c.tags| && IncludesIgnoringCase(c.tags[i], term)
  {
  }

  /** The card's button: "Continue Learning" exactly for a course in the
      user's enrollments, "Enroll Now" otherwise. */
  datatype CardButton = ContinueLearning | EnrollNow

  function ButtonFor(userEnrollments: seq<string>, courseId: string): (r: CardButton)
    ensures r == ContinueLearning <==> courseId in userEnrollments
  {
    if courseId in userEnrollments then ContinueLearning else EnrollNow
  }

  /** What `handleEnroll` ends with. */
  datatype Outcome = Navigate(route: string) | Alert(text: string)

  const EnrollFailedText := "Failed to enroll in course"

  class CatalogPageNew {
    const db: Database
    var enrollingCourseId: Option<string>

    constructor(db: Database)
      ensures this.db == db && enrollingCourseId.None?
    {
      this.db := db;
      enrollingCourseId := None;
    }

    /** `handleEnroll`: without a user, off to the login page and nothing is
        written; otherwise the enrollment is inserted, a success opens the
        course and a failure alerts with the error's message (or a default
        when it is empty) and stays. The busy marker is cleared either way. */
    method HandleEnroll(user: Option<string>, courseId: string, fault: Option<DbError>)
      returns (outcome: Outcome)
      modifies this`enrollingCourseId, db`enrollments
      ensures user.None? ==>
        outcome == Navigate(Login) && db.enrollments == old(db.enrollments)
        && enrollingCourseId == old(enrollingCourseId)
      ensures user.Some? ==> enrollingCourseId.None?
      ensures user.Some? && fault.None? ==>
        outcome == Navigate(CourseRoute(courseId))
        && db.enrollments == old(db.enrollments) + [EnrollmentRow(user.value, courseId, "in-progress")]
      ensures user.Some? && fault.Some? ==>
        outcome == Alert(OrText(Some(fault.value.message), EnrollFailedText))
        && db.enrollments == old(db.enrollments)
    {
      if user.None? {
        return Navigate(Login);
      }
      enrollingCourseId := Some(courseId);
      var result := CU.EnrollCourse(db, user.value, courseId, fault);
      if result.Success? {
        outcome := Navigate(CourseRoute(courseId));
      } else {
        outcome := Alert(OrText(Some(result.error), EnrollFailedText));
      }
      enrollingCourseId := None;
    }
  }
}
