/** The dashboard: the enrolled and recent course lists, and the buttons
    that continue or start a course. */
module Dashboard {
  import opened Wrappers
  import opened Seqs
  import opened Catalog
  import opened Routes
  import CC = CourseContext

  function IsEnrolled(): Course -> bool {
    (c: Course) => c.isEnrolled
  }

  /** `courses.filter(c => c.isEnrolled)`. */
  function EnrolledCourses(courses: seq<Course>): seq<Course> {
    Filter(courses, IsEnrolled())
  }

  /** The enrolled list holds exactly the enrolled courses, in catalogue
      order. */
  lemma EnrolledCoursesSpec(courses: seq<Course>)
    ensures forall c :: c in EnrolledCourses(courses) <==> c in courses && c.isEnrolled
    ensures IsSubsequence(EnrolledCourses(courses), courses)
  {
    FilterMembers(courses, IsEnrolled());
    FilterIsSubsequence(courses, IsEnrolled());
  }

  /** `courses.slice(0, 3)`: the first three courses, or all when fewer. */
  function RecentCourses(courses: seq<Course>): (r: seq<Course>)
    ensures |r| == if |courses| < 3 then |courses| else 3
    ensures forall i :: 0 <= i < |r| ==> r[i] == courses[i]
  {
    if |courses| < 3 then courses else courses[..3]
  }

  /** Where continuing goes: the lesson when one was found, otherwise the
      course page. */
  function ContinueRoute(courseId: string, next: Option<Lesson>): string {
    if next.Some? then LessonRoute(courseId, next.value.id) else CourseRoute(courseId)
  }

  class DashboardPage {
    const provider: CC.CourseProvider

    constructor(provider: CC.CourseProvider)
      ensures this.provider == provider
    {
      this.provider := provider;
    }

    /** `handleContinueCourse`: module by module, the first lesson neither
        completed nor locked; a module without lessons is skipped. An
        unknown course goes nowhere. */
    method HandleContinueCourse(courseId: string) returns (target: Option<string>)
      ensures FindCourse(provider.courses, courseId).None? ==> target.None?
      ensures FindCourse(provider.courses, courseId).Some? ==>
        target == Some(ContinueRoute(courseId, FirstResumable(FindCourse(provider.courses, courseId).value.modules)))
    {
      var course := FindCourse(provider.courses, courseId);
      if course.None? {
        return None;
      }
      var ms := course.value.modules;
      var nextLesson: Option<Lesson> := None;
      var i := 0;
      while i < |ms|
        invariant 0 <= i <= |ms|
        invariant FirstResumable(ms) == Find(Flatten(ms[i..]), Resumable())
      {
        assert ms[i..] == [ms[i]] + ms[i + 1..];
        assert Flatten(ms[i..]) == LessonsOf(ms[i]) + Flatten(ms[i + 1..]);
        FindAppend(LessonsOf(ms[i]), Flatten(ms[i + 1..]), Resumable());
        if ms[i].lessons.Some? {
          nextLesson := Find(ms[i].lessons.value, Resumable());
          if nextLesson.Some? {
            return Some(ContinueRoute(courseId, nextLesson));
          }
        }
        i := i + 1;
      }
      return Some(ContinueRoute(courseId, None));
    }

    /** `handleEnrollCourse`: enroll, then open the course page. */
    method HandleEnrollCourse(courseId: string) returns (target: string)
      modifies provider
      requires provider.Valid()
      ensures provider.Valid()
      ensures provider.State() == old(provider.State()).(courses := CC.UpdateCourses(old(provider.courses), courseId, CC.EnrollCourse))
      ensures target == CourseRoute(courseId)
    {
      provider.EnrollInCourse(courseId);
      target := CourseRoute(courseId);
    }

    /** The recommended-course button: continue an enrolled course, enroll
        in any other. */
    method RecommendedClick(course: Course) returns (target: Option<string>)
      modifies provider
      requires provider.Valid()
      ensures provider.Valid()
      ensures course.isEnrolled ==> provider.State() == old(provider.State())
      ensures course.isEnrolled ==>
        target == (if FindCourse(provider.courses, course.id).None? then None
                   else Some(ContinueRoute(course.id, FirstResumable(FindCourse(provider.courses, course.id).value.modules))))
      ensures !course.isEnrolled ==> target == Some(CourseRoute(course.id))
      ensures !course.isEnrolled ==>
        provider.State() == old(provider.State()).(courses := CC.UpdateCourses(old(provider.courses), course.id, CC.EnrollCourse))
    {
      if course.isEnrolled {
        target := HandleContinueCourse(course.id);
      } else {
        var route := HandleEnrollCourse(course.id);
        target := Some(route);
      }
    }
  }
}
