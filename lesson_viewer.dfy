/** The lesson page of the mock provider: marking a lesson complete (once),
    submitting an assignment, stepping to the previous or next lesson, the
    lesson list in the sidebar, and the expanded-module flags. */
module LessonViewer {
  import opened Wrappers
  import opened Catalog
  import opened Dict
  import opened Routes
  import CC = CourseContext
  import CCN = CourseContextNew

  /** Navigation happens only to a lesson that exists and is not locked;
      None means the page stays where it is. */
  function NavigateTo(courseId: string, target: Option<Lesson>): (r: Option<string>)
    ensures r.Some? <==> target.Some? && !target.value.isLocked
    ensures r.Some? ==> r.value == LessonRoute(courseId, target.value.id)
  {
    if target.Some? && !target.value.isLocked then Some(LessonRoute(courseId, target.value.id)) else None
  }

  /** `handlePreviousLesson`. */
  function PreviousTarget(courses: seq<Course>, courseId: string, lessonId: string): Option<string> {
    NavigateTo(courseId, CCN.PreviousLesson(courses, courseId, lessonId))
  }

  /** `handleNextLesson`. */
  function NextTarget(courses: seq<Course>, courseId: string, lessonId: string): Option<string> {
    NavigateTo(courseId, CCN.NextLesson(courses, courseId, lessonId))
  }

  /** The buttons go one step back or forward in reading order, and only
      onto an unlocked lesson; an unknown lesson's "next" is the first one. */
  lemma StepTargets(courses: seq<Course>, courseId: string, lessonId: string)
    requires FindCourse(courses, courseId).Some?
    ensures var all := AllLessons(FindCourse(courses, courseId)); var k := IndexOf(all, lessonId);
      PreviousTarget(courses, courseId, lessonId) ==
        if k > 0 && !all[k - 1].isLocked then Some(LessonRoute(courseId, all[k - 1].id)) else None
    ensures var all := AllLessons(FindCourse(courses, courseId)); var k := IndexOf(all, lessonId);
      NextTarget(courses, courseId, lessonId) ==
        if k < |all| - 1 && !all[k + 1].isLocked then Some(LessonRoute(courseId, all[k + 1].id)) else None
  {
  }

  // ---------------------------------------------------------------------
  // The sidebar's lesson lookup

  /** `course.modules.flatMap(m => m.lessons)` as written: without the
      `|| []` the rest of the page uses, a module with no lessons array puts
      one `undefined` entry into the list. */
  function SidebarEntries(ms: seq<Module>): (r: seq<Option<Lesson>>)
    ensures (forall i :: 0 <= i < |ms| ==> ms[i].lessons.Some?) ==> r == AsEntries(Flatten(ms))
  {
    if ms == [] then []
    else
      var head := if ms[0].lessons.Some? then AsEntries(ms[0].lessons.value) else [None];
      AsEntriesAppend(LessonsOf(ms[0]), Flatten(ms[1..]));
      head + SidebarEntries(ms[1..])
  }

  function AsEntries(ls: seq<Lesson>): (r: seq<Option<Lesson>>)
    ensures |r| == |ls| && forall i :: 0 <= i < |ls| ==> r[i] == Some(ls[i])
  {
    if ls == [] then [] else [Some(ls[0])] + AsEntries(ls[1..])
  }

  lemma AsEntriesAppend(a: seq<Lesson>, b: seq<Lesson>)
    ensures AsEntries(a + b) == AsEntries(a) + AsEntries(b)
  {
  }

  /** `.find(l => l.id === id)` over those entries: reading `id` of an
      `undefined` entry throws a TypeError before any later entry is seen. */
  function FindEntry(es: seq<Option<Lesson>>, id: string): Result<Option<Lesson>> {
    if es == [] then Success(None)
    else if es[0].None? then Failure("TypeError")
    else if es[0].value.id == id then Success(Some(es[0].value))
    else FindEntry(es[1..], id)
  }

  lemma {:induction false} FindEntryOfLessons(ls: seq<Lesson>, id: string)
    ensures FindEntry(AsEntries(ls), id) == Success(FindLesson(ls, id))
  {
    if ls != [] {
      assert AsEntries(ls)[1..] == AsEntries(ls[1..]);
      FindEntryOfLessons(ls[1..], id);
    }
  }

  /** The sidebar click as written: the route when the clicked lesson is
      found and unlocked; a thrown error when a module without lessons comes
      before it. */
  function SidebarClickAsWritten(course: Course, clickedId: string): Result<Option<string>> {
    var found := FindEntry(SidebarEntries(course.modules), clickedId);
    if found.Failure? then Failure(found.error) else Success(NavigateTo(course.id, found.value))
  }

  /** A first module without lessons makes every click on a lesson of a
      later module throw. */
  lemma SidebarClickThrows()
    ensures var lesson := Lesson("l1", "Intro", "lesson", false, false, None, None);
      var course := Course("c1", "Course", "", "Beginner", [], None, None, None, true, Some(0), false,
                           [Module("m0", "Empty", None), Module("m1", "Module", Some([lesson]))]);
      SidebarClickAsWritten(course, "l1").Failure?
  {
    var lesson := Lesson("l1", "Intro", "lesson", false, false, None, None);
    var ms := [Module("m0", "Empty", None), Module("m1", "Module", Some([lesson]))];
    assert SidebarEntries(ms)[0] == None by {
      assert SidebarEntries(ms) == [None] + SidebarEntries(ms[1..]);
    }
  }

  /** The sidebar click as evidently intended, reading the same lesson order
      as the rest of the page: only an existing, unlocked lesson is opened. */
  function SidebarClick(course: Course, clickedId: string): (r: Option<string>)
    ensures r.Some? <==>
      (FindLesson(Flatten(course.modules), clickedId).Some?
       && !FindLesson(Flatten(course.modules), clickedId).value.isLocked)
    ensures r.Some? ==> r.value == LessonRoute(course.id, clickedId)
  {
    NavigateTo(course.id, FindLesson(Flatten(course.modules), clickedId))
  }

  /** When every module has its lessons array, the code as written and the
      intended lookup agree. */
  lemma SidebarClickAgrees(course: Course, clickedId: string)
    requires forall i :: 0 <= i < |course.modules| ==> course.modules[i].lessons.Some?
    ensures SidebarClickAsWritten(course, clickedId) == Success(SidebarClick(course, clickedId))
  {
    FindEntryOfLessons(Flatten(course.modules), clickedId);
  }

  // ---------------------------------------------------------------------
  // The page

  /** The page unlocks the next lesson again after `completeLesson` already
      did; the second unlock changes nothing. */
  lemma SecondUnlockHarmless(st: CC.ProviderState, courseId: string, lessonId: string)
    ensures var after := CC.AfterCompletion(st, courseId, lessonId);
      after.(courses := CC.UnlockNextIn(after.courses, courseId, lessonId)) == after
  {
    CC.UnlockNextInIdempotent(CC.CompleteLessonIn(st.courses, courseId, lessonId), courseId, lessonId);
  }

  class LessonPage {
    const provider: CC.CourseProvider
    const courseId: string
    const lessonId: string
    var expandedModules: Dict<bool>
    var showSubmissionForm: bool

    constructor(provider: CC.CourseProvider, courseId: string, lessonId: string)
      ensures this.provider == provider && this.courseId == courseId && this.lessonId == lessonId
      ensures expandedModules == [] && !showSubmissionForm
    {
      this.provider := provider;
      this.courseId := courseId;
      this.lessonId := lessonId;
      expandedModules := [];
      showSubmissionForm := false;
    }

    /** The lesson the page shows; without it the page shows "Lesson not
        found" and offers none of the handlers below. */
    function Lesson(): Option<Lesson>
      reads provider
    {
      CC.LessonById(provider.courses, courseId, lessonId)
    }

    /** `handleMarkComplete`: a lesson already completed is left alone;
        otherwise it is completed and the next lesson unlocked once more,
        which adds nothing to what the completion already unlocked. */
    method HandleMarkComplete()
      modifies provider
      requires provider.Valid() && Lesson().Some?
      ensures provider.Valid()
      ensures provider.State() ==
        if old(Lesson()).value.isCompleted then old(provider.State())
        else CC.AfterCompletion(old(provider.State()), courseId, lessonId)
    {
      var lesson := Lesson().value;
      if !lesson.isCompleted {
        ghost var before := provider.State();
        provider.CompleteLesson(courseId, lessonId);
        provider.UnlockNextLesson(courseId, lessonId);
        SecondUnlockHarmless(before, courseId, lessonId);
      }
    }

    /** `handleSubmitAssignment`: the submission is stored, the form closes,
        and the lesson goes through the mark-complete path. */
    method HandleSubmitAssignment(payload: CC.AssignmentPayload, now: string) returns (submissionId: string)
      modifies provider, this`showSubmissionForm
      requires provider.Valid() && Lesson().Some?
      ensures provider.Valid() && !showSubmissionForm
      ensures submissionId == courseId + "-" + lessonId + "-" + now
      ensures var stored := old(provider.State()).(submissions := Put(old(provider.submissions), submissionId,
                CC.Submission(submissionId, courseId, lessonId, payload, now, "submitted", [], true, CC.CurrentUserId)));
        provider.State() ==
          if old(Lesson()).value.isCompleted then stored else CC.AfterCompletion(stored, courseId, lessonId)
    {
      submissionId := provider.SubmitAssignment(courseId, lessonId, payload, now);
      showSubmissionForm := false;
      HandleMarkComplete();
    }

    /** `toggleModule`: only the given module's flag flips. */
    method ToggleModule(moduleId: string)
      modifies this`expandedModules
      ensures expandedModules == Toggle(old(expandedModules), moduleId)
    {
      expandedModules := Toggle(expandedModules, moduleId);
    }
  }
}
