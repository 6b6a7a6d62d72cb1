/** The course page: the course is looked up in the bundled course list, its
    modules fold open one by one, and the primary button continues or
    enrolls. */
module CourseDetail {
  import opened Wrappers
  import opened Seqs
  import opened Catalog
  import opened Dict
  import opened Routes
  import CC = CourseContext

  /** The page for a course id: the course, or the not-found view. */
  datatype View = Found(course: Course) | NotFound

  function ViewOf(bundled: seq<Course>, courseId: string): (r: View)
    ensures r.NotFound? <==> forall c :: c in bundled ==> c.id != courseId
    ensures r.Found? ==> r.course in bundled && r.course.id == courseId
  {
    var found := FindCourse(bundled, courseId);
    if found.Some? then Found(found.value) else NotFound
  }

  /** `handleContinueCourse`: the first lesson neither completed nor locked,
      else the last lesson; with no lesson at all the last one is
      `undefined` and reading its id throws. */
  function ContinueTarget(courseId: string, course: Course): (r: Result<string>)
  {
    var all := AllLessons(Some(course));
    var next := Find(all, Resumable());
    if next.Some? then Success(LessonRoute(courseId, next.value.id))
    else if |all| == 0 then Failure("TypeError")
    else Success(LessonRoute(courseId, all[|all| - 1].id))
  }

  /** Continuing fails exactly on a course without lessons; otherwise it
      opens the first resumable lesson, or the last lesson when every lesson
      is completed or locked. */
  lemma ContinueTargetSpec(courseId: string, course: Course)
    ensures var all := Flatten(course.modules);
      (ContinueTarget(courseId, course).Failure? <==> all == [])
      && (FirstResumable(course.modules).Some? ==>
            ContinueTarget(courseId, course) == Success(LessonRoute(courseId, FirstResumable(course.modules).value.id)))
      && (FirstResumable(course.modules).None? && all != [] ==>
            (forall i :: 0 <= i < |all| ==> all[i].isCompleted || all[i].isLocked)
            && ContinueTarget(courseId, course) == Success(LessonRoute(courseId, all[|all| - 1].id)))
  {
    FirstResumableSpec(course.modules);
  }

  /** Once every lesson is completed, continuing always reopens the last
      lesson of the last module that has any. */
  lemma FinishedCourseReopensLastLesson(courseId: string, course: Course)
    requires Flatten(course.modules) != []
    requires forall l :: l in Flatten(course.modules) ==> l.isCompleted
    ensures ContinueTarget(courseId, course)
      == Success(LessonRoute(courseId, Flatten(course.modules)[|Flatten(course.modules)| - 1].id))
  {
    var all := Flatten(course.modules);
    FirstResumableSpec(course.modules);
    assert forall i :: 0 <= i < |all| ==> all[i] in all;
  }

  /** The primary button: continue when enrolled, enroll otherwise. */
  datatype Action = Continue | Enroll

  function PrimaryAction(course: Course): (r: Action)
    ensures r == Continue <==> course.isEnrolled
  {
    if course.isEnrolled then Continue else Enroll
  }

  class CourseDetailPage {
    const provider: CC.CourseProvider
    const bundled: seq<Course>
    const courseId: string
    var expandedModules: Dict<bool>

    constructor(provider: CC.CourseProvider, bundled: seq<Course>, courseId: string)
      ensures this.provider == provider && this.bundled == bundled && this.courseId == courseId
      ensures expandedModules == []
    {
      this.provider := provider;
      this.bundled := bundled;
      this.courseId := courseId;
      expandedModules := [];
    }

    /** `toggleModule`: only the given module's flag flips. */
    method ToggleModule(moduleId: string)
      modifies this`expandedModules
      ensures expandedModules == Toggle(old(expandedModules), moduleId)
    {
      expandedModules := Toggle(expandedModules, moduleId);
    }

    /** `handleEnroll`: the course is enrolled in the provider; the page
        itself keeps showing the bundled record. */
    method HandleEnroll()
      modifies provider
      requires provider.Valid()
      ensures provider.Valid()
      ensures provider.State() == old(provider.State()).(courses := CC.UpdateCourses(old(provider.courses), courseId, CC.EnrollCourse))
    {
      provider.EnrollInCourse(courseId);
    }

    /** The primary button of a found course: enroll when the bundled record
        is not enrolled, otherwise continue to a lesson. */
    method HandlePrimary() returns (target: Option<Result<string>>)
      modifies provider
      requires provider.Valid()
      requires ViewOf(bundled, courseId).Found?
      ensures provider.Valid()
      ensures PrimaryAction(ViewOf(bundled, courseId).course) == Enroll ==>
        target.None?
        && provider.State() == old(provider.State()).(courses := CC.UpdateCourses(old(provider.courses), courseId, CC.EnrollCourse))
      ensures PrimaryAction(ViewOf(bundled, courseId).course) == Continue ==>
        target == Some(ContinueTarget(courseId, ViewOf(bundled, courseId).course))
        && provider.State() == old(provider.State())
    {
      var course := ViewOf(bundled, courseId).course;
      if PrimaryAction(course) == Continue {
        target := Some(ContinueTarget(courseId, course));
      } else {
        HandleEnroll();
        target := None;
      }
    }
  }
}
