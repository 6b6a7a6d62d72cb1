/** The newer course provider: lessons in reading order with previous and
    next, completion kept in a per-user map keyed by course and lesson,
    module progress from that map, and submissions and review requests kept
    in memory. */
module CourseContextNew {
  import opened Wrappers
  import opened Catalog
  import opened Dict
  import opened Seqs
  import CC = CourseContext

  // ---------------------------------------------------------------------
  // Navigation

  /** `getPreviousLesson`: the lesson before the current one in reading
      order; none for the first lesson, an unknown lesson or an unknown course. */
  function PreviousLesson(courses: seq<Course>, courseId: string, lessonId: string): (r: Option<Lesson>)
    ensures var all := AllLessons(FindCourse(courses, courseId));
      r.Some? <==> FindCourse(courses, courseId).Some? && IndexOf(all, lessonId) > 0
  {
    var course := FindCourse(courses, courseId);
    if course.None? then None
    else
      var all := AllLessons(course);
      var index := IndexOf(all, lessonId);
      if index > 0 then Some(all[index - 1]) else None
  }

  /** `getNextLesson`: the lesson after the current one; none after the last.
      An unknown lesson has index -1, so its "next" is the first lesson. */
  function NextLesson(courses: seq<Course>, courseId: string, lessonId: string): (r: Option<Lesson>)
    ensures var all := AllLessons(FindCourse(courses, courseId));
      r.Some? <==> FindCourse(courses, courseId).Some? && IndexOf(all, lessonId) < |all| - 1
    ensures var all := AllLessons(FindCourse(courses, courseId));
      FindCourse(courses, courseId).Some? && IndexOf(all, lessonId) == -1 && all != [] ==> r == Some(all[0])
  {
    var course := FindCourse(courses, courseId);
    if course.None? then None
    else
      var all := AllLessons(course);
      var index := IndexOf(all, lessonId);
      if index < |all| - 1 then Some(all[index + 1]) else None
  }

  /** `getCurrentLessonIndex`: 0 for an unknown course, -1 for an unknown lesson. */
  function CurrentLessonIndex(courses: seq<Course>, courseId: string, lessonId: string): (r: int)
    ensures FindCourse(courses, courseId).None? ==> r == 0
    ensures FindCourse(courses, courseId).Some? ==>
      var all := AllLessons(FindCourse(courses, courseId));
      -1 <= r < |all| && (r == -1 <==> forall i :: 0 <= i < |all| ==> all[i].id != lessonId)
      && (r >= 0 ==> all[r].id == lessonId)
  {
    var course := FindCourse(courses, courseId);
    if course.None? then 0 else IndexOf(AllLessons(course), lessonId)
  }

  /** With distinct lesson ids, previous and next undo each other: the lesson
      after the previous one is the current one, and the other way round. */
  lemma PreviousNextInverse(courses: seq<Course>, courseId: string, lessonId: string)
    requires CC.DistinctIds(AllLessons(FindCourse(courses, courseId)))
    ensures PreviousLesson(courses, courseId, lessonId).Some? ==>
      NextLesson(courses, courseId, PreviousLesson(courses, courseId, lessonId).value.id)
        == FindLesson(AllLessons(FindCourse(courses, courseId)), lessonId)
    ensures NextLesson(courses, courseId, lessonId).Some? && IndexOf(AllLessons(FindCourse(courses, courseId)), lessonId) >= 0 ==>
      PreviousLesson(courses, courseId, NextLesson(courses, courseId, lessonId).value.id)
        == FindLesson(AllLessons(FindCourse(courses, courseId)), lessonId)
  {
    var course := FindCourse(courses, courseId);
    if course.Some? {
      var all := AllLessons(course);
      var index := IndexOf(all, lessonId);
      if index > 0 {
        IndexOfDistinct(all, index - 1);
      }
      if 0 <= index < |all| - 1 {
        IndexOfDistinct(all, index + 1);
      }
    }
  }

  /** Among distinct ids, looking a lesson's id up finds that lesson's position. */
  lemma IndexOfDistinct(all: seq<Lesson>, k: int)
    requires CC.DistinctIds(all) && 0 <= k < |all|
    ensures IndexOf(all, all[k].id) == k
  {
    assert IndexOf(all, all[k].id) >= 0;
  }

  // ---------------------------------------------------------------------
  // Completion map

  datatype LessonProgress = LessonProgress(completed: bool, completedAt: Option<string>)

  /** The key `${courseId}-${lessonId}`. */
  function ProgressKey(courseId: string, lessonId: string): string {
    courseId + "-" + lessonId
  }

  /** `isLessonCompleted`: the stored entry says completed; a lesson never
      marked reads as `{ completed: false }`. */
  function IsLessonCompleted(progress: Dict<LessonProgress>, courseId: string, lessonId: string): (r: bool)
    ensures r ==> ProgressKey(courseId, lessonId) in Keys(progress)
  {
    GetSpec(progress, ProgressKey(courseId, lessonId));
    Get(progress, ProgressKey(courseId, lessonId)).GetOr(LessonProgress(false, None)).completed
  }

  /** The key joins the ids with a dash, so ids that contain dashes can meet:
      course "a-b" with lesson "c" shares its entry with course "a" and
      lesson "b-c". */
  lemma ProgressKeysCanCollide()
    ensures ProgressKey("a-b", "c") == ProgressKey("a", "b-c")
  {
  }

  /** `markLessonComplete` on the map: the key becomes completed, every other
      key reads as before, and marking twice is marking once. */
  lemma MarkCompleteEffect(progress: Dict<LessonProgress>, courseId: string, lessonId: string,
                           now: string, otherCourse: string, otherLesson: string)
    ensures IsLessonCompleted(Put(progress, ProgressKey(courseId, lessonId), LessonProgress(true, Some(now))), courseId, lessonId)
    ensures ProgressKey(otherCourse, otherLesson) != ProgressKey(courseId, lessonId) ==>
      IsLessonCompleted(Put(progress, ProgressKey(courseId, lessonId), LessonProgress(true, Some(now))), otherCourse, otherLesson)
        == IsLessonCompleted(progress, otherCourse, otherLesson)
  {
    var key := ProgressKey(courseId, lessonId);
    var entry := LessonProgress(true, Some(now));
    GetPutSame(progress, key, entry);
    if ProgressKey(otherCourse, otherLesson) != key {
      GetPutOther(progress, key, entry, ProgressKey(otherCourse, otherLesson));
    }
  }

  /** Every stored entry is completed: only marking writes the map. */
  ghost predicate AllCompleted(progress: Dict<LessonProgress>) {
    forall i :: 0 <= i < |progress| ==> progress[i].value.completed
  }

  /** While every entry is completed, a lesson reads as completed exactly
      when its key was ever marked. */
  lemma CompletedIffMarked(progress: Dict<LessonProgress>, courseId: string, lessonId: string)
    requires AllCompleted(progress)
    ensures IsLessonCompleted(progress, courseId, lessonId) <==> ProgressKey(courseId, lessonId) in Keys(progress)
  {
    var key := ProgressKey(courseId, lessonId);
    var got := Get(progress, key);
    GetSpec(progress, key);
    if got.Some? {
      var i :| 0 <= i < |progress| && progress[i] == Entry(key, got.value);
      assert progress[i].value.completed;
    }
  }

  // ---------------------------------------------------------------------
  // Module progress

  function ModuleWithId(moduleId: string): Module -> bool {
    (m: Module) => m.id == moduleId
  }

  function CompletedIn(progress: Dict<LessonProgress>, courseId: string): Lesson -> bool {
    (l: Lesson) => IsLessonCompleted(progress, courseId, l.id)
  }

  /** `(completed.length / lessons.length) * 100`, exactly; not a number
      (None) when there are no lessons. */
  function LessonsShare(lessons: seq<Lesson>, progress: Dict<LessonProgress>, courseId: string): (r: Option<real>)
    ensures r.None? <==> |lessons| == 0
    ensures r.Some? ==> 0.0 <= r.value <= 100.0
  {
    var done := Filter(lessons, CompletedIn(progress, courseId));
    if |lessons| == 0 then None
    else Some((|done| as real / |lessons| as real) * 100.0)
  }

  /** `getModuleProgress`: 0 for an unknown course or module; it throws (a
      failure here) when the module has no `lessons` array. */
  function ModuleProgress(courses: seq<Course>, progress: Dict<LessonProgress>, courseId: string, moduleId: string)
    : (r: Result<Option<real>>)
    ensures r.Success? && r.value.Some? ==> 0.0 <= r.value.value <= 100.0
  {
    var course := FindCourse(courses, courseId);
    if course.None? then Success(Some(0.0))
    else
      var mod := Find(course.value.modules, ModuleWithId(moduleId));
      if mod.None? then Success(Some(0.0))
      else if mod.value.lessons.None? then Failure("module.lessons is undefined")
      else Success(LessonsShare(mod.value.lessons.value, progress, courseId))
  }

  /** `isModuleCompleted`: the progress equals 100. */
  function IsModuleCompleted(courses: seq<Course>, progress: Dict<LessonProgress>, courseId: string, moduleId: string)
    : (r: Result<bool>)
    ensures r.Success? <==> ModuleProgress(courses, progress, courseId, moduleId).Success?
    ensures FindCourse(courses, courseId).None? ==> r == Success(false)
  {
    var p := ModuleProgress(courses, progress, courseId, moduleId);
    if p.Failure? then Failure(p.error) else Success(p.value == Some(100.0))
  }

  /** A share of k out of n lessons is 100 exactly when k is n. */
  lemma ShareIsHundred(k: nat, n: nat)
    requires 0 < n && k <= n
    ensures (k as real / n as real) * 100.0 == 100.0 <==> k == n
  {
    var q := k as real / n as real;
    assert q * (n as real) == k as real;
  }

  /** A module with lessons is completed exactly when every one of its
      lessons is; an empty module is never completed. */
  lemma ShareCompleteIffAllDone(lessons: seq<Lesson>, progress: Dict<LessonProgress>, courseId: string)
    ensures LessonsShare(lessons, progress, courseId) == Some(100.0) <==>
      |lessons| > 0 && forall i :: 0 <= i < |lessons| ==> IsLessonCompleted(progress, courseId, lessons[i].id)
  {
    var p := CompletedIn(progress, courseId);
    FilterKeepsAll(lessons, p);
    if |lessons| > 0 {
      ShareIsHundred(|Filter(lessons, p)|, |lessons|);
    }
  }

  // ---------------------------------------------------------------------
  // Submissions and review requests

  /** A submission as this provider stores it. */
  datatype StoredSubmission = StoredSubmission(
    id: string, courseId: string, lessonId: string, payload: CC.AssignmentPayload,
    submittedAt: string, status: string)

  /** A review request as this provider stores it. The payload is spread after
      the ids, so its own `lessonId` is the one the record keeps. */
  datatype StoredRequest = StoredRequest(
    id: string, courseId: string, lessonId: string, payload: CC.RequestPayload,
    submittedAt: string, status: string, reviews: seq<CC.Feedback>)

  /** `request.id === requestId ? {...request, reviews: [...reviews, feedback]} : request`
      over one lesson's list. */
  function WithFeedback(requests: seq<StoredRequest>, requestId: string, feedback: CC.Feedback): (r: seq<StoredRequest>)
    ensures |r| == |requests|
    ensures forall i :: 0 <= i < |requests| ==>
      r[i] == if requests[i].id == requestId then requests[i].(reviews := requests[i].reviews + [feedback]) else requests[i]
  {
    if requests == [] then []
    else
      var q := requests[0];
      [if q.id == requestId then q.(reviews := q.reviews + [feedback]) else q] + WithFeedback(requests[1..], requestId, feedback)
  }

  function FeedbackAdder(requestId: string, feedback: CC.Feedback): seq<StoredRequest> -> seq<StoredRequest> {
    (requests: seq<StoredRequest>) => WithFeedback(requests, requestId, feedback)
  }

  /** Adding feedback to a request id that nobody holds changes nothing. */
  lemma WithFeedbackAbsent(requests: seq<StoredRequest>, requestId: string, feedback: CC.Feedback)
    requires forall i :: 0 <= i < |requests| ==> requests[i].id != requestId
    ensures WithFeedback(requests, requestId, feedback) == requests
  {
  }

  class CourseProvider {
    var courses: seq<Course>
    var userProgress: Dict<LessonProgress>
    var submissions: Dict<StoredSubmission>
    var reviewRequests: Dict<seq<StoredRequest>>

    ghost predicate Valid()
      reads this
    {
      KeysUnique(userProgress) && KeysUnique(submissions) && KeysUnique(reviewRequests)
      && AllCompleted(userProgress)
    }

    /** The provider before the courses arrive: everything empty. */
    constructor()
      ensures Valid()
      ensures courses == [] && userProgress == [] && submissions == [] && reviewRequests == []
    {
      courses := [];
      userProgress := [];
      submissions := [];
      reviewRequests := [];
    }

    /** The loaded course list, with whatever progress and enrollment the
        loader attached to it. */
    method LoadCourses(loaded: seq<Course>)
      modifies this`courses
      ensures courses == loaded
    {
      courses := loaded;
    }

    /** `enrollInCourse`: the courses with the id are flagged enrolled. */
    method EnrollInCourse(courseId: string)
      modifies this`courses
      ensures |courses| == |old(courses)|
      ensures forall i :: 0 <= i < |courses| ==>
        courses[i] == if old(courses)[i].id == courseId then old(courses)[i].(isEnrolled := true) else old(courses)[i]
    {
      courses := seq(|courses|, i requires 0 <= i < |courses| reads this =>
        if courses[i].id == courseId then courses[i].(isEnrolled := true) else courses[i]);
    }

    /** `markLessonComplete`: the course and lesson's key is set to a
        completed entry; every other key keeps its entry. */
    method MarkLessonComplete(courseId: string, lessonId: string, now: string)
      requires Valid()
      modifies this`userProgress
      ensures Valid()
      ensures userProgress == Put(old(userProgress), ProgressKey(courseId, lessonId), LessonProgress(true, Some(now)))
      ensures IsLessonCompleted(userProgress, courseId, lessonId)
    {
      var key := ProgressKey(courseId, lessonId);
      var entry := LessonProgress(true, Some(now));
      PutKeepsKeysUnique(userProgress, key, entry);
      MarkCompleteEffect(userProgress, courseId, lessonId, now, courseId, lessonId);
      var updated := Put(userProgress, key, entry);
      forall i | 0 <= i < |updated|
        ensures updated[i].value.completed
      {
        PutEntries(userProgress, key, entry, i);
      }
      userProgress := updated;
    }

    /** `submitAssignment`: stored under `sub-<stamp>` with status "submitted". */
    method SubmitAssignment(courseId: string, lessonId: string, submission: CC.AssignmentPayload,
                            stamp: string, now: string)
      returns (submissionId: string)
      requires Valid()
      modifies this`submissions
      ensures Valid()
      ensures submissionId == "sub-" + stamp
      ensures submissions == Put(old(submissions), submissionId,
                                 StoredSubmission(submissionId, courseId, lessonId, submission, now, "submitted"))
    {
      submissionId := "sub-" + stamp;
      var record := StoredSubmission(submissionId, courseId, lessonId, submission, now, "submitted");
      PutKeepsKeysUnique(submissions, submissionId, record);
      submissions := Put(submissions, submissionId, record);
    }

    /** `submitReviewRequest`: one "open" request appended to the lesson's
        list, earlier requests kept in order. */
    method SubmitReviewRequest(courseId: string, lessonId: string, request: CC.RequestPayload,
                               stamp: string, now: string)
      returns (requestId: string)
      requires Valid()
      modifies this`reviewRequests
      ensures Valid()
      ensures requestId == "req-" + stamp
      ensures Get(reviewRequests, lessonId) ==
        Some(Get(old(reviewRequests), lessonId).GetOr([])
             + [StoredRequest(requestId, courseId, request.lessonId, request, now, "open", [])])
      ensures forall k :: k != lessonId ==> Get(reviewRequests, k) == Get(old(reviewRequests), k)
    {
      requestId := "req-" + stamp;
      var record := StoredRequest(requestId, courseId, request.lessonId, request, now, "open", []);
      var list := Get(reviewRequests, lessonId).GetOr([]) + [record];
      PutKeepsKeysUnique(reviewRequests, lessonId, list);
      GetPutSame(reviewRequests, lessonId, list);
      forall k | k != lessonId
        ensures Get(Put(reviewRequests, lessonId, list), k) == Get(reviewRequests, k)
      {
        GetPutOther(reviewRequests, lessonId, list, k);
      }
      reviewRequests := Put(reviewRequests, lessonId, list);
    }

    /** `submitReviewFeedback`: every lesson's list is rewritten, the feedback
        appended to the requests with the id, whichever lesson holds them. */
    method SubmitReviewFeedback(requestId: string, feedback: CC.Feedback)
      requires Valid()
      modifies this`reviewRequests
      ensures Valid()
      ensures reviewRequests == MapValues(old(reviewRequests), FeedbackAdder(requestId, feedback))
    {
      var current := reviewRequests;
      var add := FeedbackAdder(requestId, feedback);
      var updated: Dict<seq<StoredRequest>> := [];
      var i := 0;
      while i < |current|
        invariant 0 <= i <= |current|
        invariant updated == MapValues(current[..i], add)
      {
        var e := current[i];
        assert current[..i + 1] == current[..i] + [e];
        MapValuesAppend(current[..i], [e], add);
        updated := updated + [Entry(e.key, WithFeedback(e.value, requestId, feedback))];
        i := i + 1;
      }
      assert current[..i] == current;
      MapValuesKeepsKeys(current, add);
      reviewRequests := updated;
    }
  }

  /** Each entry of a `Put` is the new entry or an old one. */
  lemma PutEntries<V>(d: Dict<V>, k: string, v: V, i: int)
    requires 0 <= i < |Put(d, k, v)|
    ensures Put(d, k, v)[i] == Entry(k, v) || Put(d, k, v)[i] in d
  {
    PutEntriesAll(d, k, v);
  }

  lemma {:induction false} PutEntriesAll<V>(d: Dict<V>, k: string, v: V)
    ensures forall i :: 0 <= i < |Put(d, k, v)| ==> Put(d, k, v)[i] == Entry(k, v) || Put(d, k, v)[i] in d
  {
    if d != [] && d[0].key != k {
      PutEntriesAll(d[1..], k, v);
    }
  }

  lemma MapValuesAppend<V>(a: Dict<V>, b: Dict<V>, f: V -> V)
    ensures MapValues(a + b, f) == MapValues(a, f) + MapValues(b, f)
  {
  }
}
