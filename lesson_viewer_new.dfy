/** The database-backed lesson page: the lesson list tagged with module
    ids, previous and next, and the mark-complete handler that records the
    completion and reports the points and any level-up. */
module LessonViewerNew {
  import opened Wrappers
  import opened Catalog
  import opened Backend
  import opened FlatLevel
  import CU = CourseUtils
  import CCN = CourseContextNew

  /** A lesson copied with the id of the module holding it. */
  datatype TaggedLesson = TaggedLesson(lesson: Lesson, moduleId: string)

  /** `m.lessons.map(l => ({ ...l, moduleId: m.id }))`. */
  function Tag(ls: seq<Lesson>, moduleId: string): (r: seq<TaggedLesson>)
    ensures |r| == |ls| && forall i :: 0 <= i < |ls| ==> r[i] == TaggedLesson(ls[i], moduleId)
  {
    if ls == [] then [] else [TaggedLesson(ls[0], moduleId)] + Tag(ls[1..], moduleId)
  }

  function Untag(ts: seq<TaggedLesson>): (r: seq<Lesson>)
    ensures |r| == |ts| && forall i :: 0 <= i < |ts| ==> r[i] == ts[i].lesson
  {
    if ts == [] then [] else [ts[0].lesson] + Untag(ts[1..])
  }

  /** Untagging undoes tagging. */
  lemma UntagTag(ls: seq<Lesson>, moduleId: string)
    ensures Untag(Tag(ls, moduleId)) == ls
  {
  }

  lemma UntagAppend(a: seq<TaggedLesson>, b: seq<TaggedLesson>)
    ensures Untag(a + b) == Untag(a) + Untag(b)
  {
  }

  /** The `flatMap` over the modules; the render throws (None) when a module
      has no lessons array, since the code maps over it unguarded. */
  function TagModules(ms: seq<Module>): (r: Option<seq<TaggedLesson>>)
    ensures r.None? <==> exists i :: 0 <= i < |ms| && ms[i].lessons.None?
    ensures r.Some? ==> Untag(r.value) == Flatten(ms)
  {
    if ms == [] then Some([])
    else if ms[0].lessons.None? then None
    else
      var rest := TagModules(ms[1..]);
      if rest.None? then
        assert ms[1..] == ms[1..];
        var i :| 0 <= i < |ms[1..]| && ms[1..][i].lessons.None?;
        assert ms[i + 1].lessons.None?;
        None
      else
        var t := Tag(ms[0].lessons.value, ms[0].id);
        UntagAppend(t, rest.value);
        UntagTag(ms[0].lessons.value, ms[0].id);
        assert forall i :: 0 < i < |ms| ==> ms[i] == ms[1..][i - 1];
        Some(t + rest.value)
  }

  /** `getAllLessons`: no course or no modules gives the empty list. */
  function AllTagged(course: Option<Course>): Option<seq<TaggedLesson>> {
    if course.None? then Some([]) else TagModules(course.value.modules)
  }

  /** Every tagged lesson carries the id of a module that holds it. */
  lemma {:induction false} TagsNameTheirModule(ms: seq<Module>)
    requires TagModules(ms).Some?
    ensures var ts := TagModules(ms).value;
      forall k :: 0 <= k < |ts| ==>
        exists i :: 0 <= i < |ms| && ts[k].moduleId == ms[i].id && ts[k].lesson in LessonsOf(ms[i])
  {
    if ms != [] {
      TagsNameTheirModule(ms[1..]);
      var ts := TagModules(ms).value;
      var head := Tag(ms[0].lessons.value, ms[0].id);
      var rest := TagModules(ms[1..]).value;
      assert ts == head + rest;
      forall k | 0 <= k < |ts|
        ensures exists i :: 0 <= i < |ms| && ts[k].moduleId == ms[i].id && ts[k].lesson in LessonsOf(ms[i])
      {
        if k < |head| {
          assert ts[k].moduleId == ms[0].id && ts[k].lesson == ms[0].lessons.value[k];
        } else {
          assert ts[k] == rest[k - |head|];
          var i :| 0 <= i < |ms[1..]| && rest[k - |head|].moduleId == ms[1..][i].id
                   && rest[k - |head|].lesson in LessonsOf(ms[1..][i]);
          assert ms[1..][i] == ms[i + 1];
        }
      }
    }
  }

  /** The lesson before the current one in the tagged list. */
  function PreviousOf(ts: seq<TaggedLesson>, lessonId: string): (r: Option<TaggedLesson>)
    ensures r.Some? <==> IndexOf(Untag(ts), lessonId) > 0
    ensures r.Some? ==> r.value == ts[IndexOf(Untag(ts), lessonId) - 1]
  {
    var index := IndexOf(Untag(ts), lessonId);
    if index > 0 then Some(ts[index - 1]) else None
  }

  /** The lesson after the current one; an unknown lesson's is the first. */
  function NextOf(ts: seq<TaggedLesson>, lessonId: string): (r: Option<TaggedLesson>)
    ensures r.Some? <==> IndexOf(Untag(ts), lessonId) < |ts| - 1
    ensures r.Some? ==> r.value == ts[IndexOf(Untag(ts), lessonId) + 1]
  {
    var index := IndexOf(Untag(ts), lessonId);
    if index < |ts| - 1 then Some(ts[index + 1]) else None
  }

  /** The page steps through the same lessons as the newer provider's
      previous and next, only tagged with their modules. */
  lemma NeighboursAgreeWithProvider(courses: seq<Course>, courseId: string, lessonId: string)
    requires FindCourse(courses, courseId).Some?
    requires AllTagged(FindCourse(courses, courseId)).Some?
    ensures var ts := AllTagged(FindCourse(courses, courseId)).value;
      (PreviousOf(ts, lessonId).Some? <==> CCN.PreviousLesson(courses, courseId, lessonId).Some?)
      && (PreviousOf(ts, lessonId).Some? ==>
            PreviousOf(ts, lessonId).value.lesson == CCN.PreviousLesson(courses, courseId, lessonId).value)
      && (NextOf(ts, lessonId).Some? <==> CCN.NextLesson(courses, courseId, lessonId).Some?)
      && (NextOf(ts, lessonId).Some? ==>
            NextOf(ts, lessonId).value.lesson == CCN.NextLesson(courses, courseId, lessonId).value)
  {
  }

  // ---------------------------------------------------------------------
  // Marking the lesson complete

  /** The context's current lesson: the lesson data, with whatever
      `moduleId` it carries. */
  datatype CurrentLesson = CurrentLesson(lesson: Lesson, moduleId: Option<string>)

  const DefaultPoints := 10

  /** `currentLesson.points || 10`. */
  function PointsOf(current: CurrentLesson): (r: int)
    ensures current.lesson.points.Some? && current.lesson.points.value != 0 ==> r == current.lesson.points.value
    ensures current.lesson.points.None? || current.lesson.points.value == 0 ==> r == DefaultPoints
  {
    OrNumber(current.lesson.points, DefaultPoints)
  }

  /** The banner: the points, and the new level on a level-up. */
  datatype CompletionMessage = CompletionMessage(points: int, newLevel: Option<int>)

  /** What the handler does besides recording. */
  datatype Outcome = RedirectToLogin | Alert(text: string) | Shown

  const AlreadyCompletedText := "Lesson already completed!"
  const FailedText := "Failed to complete lesson"
  const ErrorText := "Error completing lesson"

  /** The banner for a successful call: a level-up line only when the
      result says the level went up (an already-completed lesson says
      nothing about levels). */
  function MessageFor(c: CU.Completion, points: int): (r: CompletionMessage)
    ensures r.points == points
    ensures r.newLevel.Some? <==> c.Awarded? && c.leveledUp
    ensures r.newLevel.Some? ==> r.newLevel.value == c.newLevel
  {
    if c.Awarded? && c.leveledUp then CompletionMessage(points, Some(c.newLevel)) else CompletionMessage(points, None)
  }

  class LessonPageNew {
    const db: Database
    var isCompleting: bool
    var lessonCompleted: bool
    var completionMessage: Option<CompletionMessage>

    constructor(db: Database)
      ensures this.db == db && !isCompleting && !lessonCompleted && completionMessage.None?
    {
      this.db := db;
      isCompleting := false;
      lessonCompleted := false;
      completionMessage := None;
    }

    /** `handleMarkComplete`. Without a user it sends the visitor to log in;
        a lesson this page already completed is refused; otherwise the
        completion is recorded with the lesson's points (10 by default)
        and, on success, the page flags the lesson and shows the banner.
        `result` is what the recording call returned, None when it was not
        made; the tables change as `CourseUtils.Record` says, `faults`
        being what the four database calls met. */
    method HandleMarkComplete(user: Option<string>, current: Option<CurrentLesson>,
                              courseId: string, lessonId: string, now: string, faults: CU.Faults)
      returns (outcome: Outcome, result: Option<Result<CU.Completion>>)
      modifies this`isCompleting, this`lessonCompleted, this`completionMessage, db`progress, db`users
      ensures isCompleting == if user.None? || old(lessonCompleted) then old(isCompleting) else false
      ensures user.None? ==> outcome == RedirectToLogin
      ensures user.Some? && old(lessonCompleted) ==> outcome == Alert(AlreadyCompletedText)
      ensures user.Some? && !old(lessonCompleted) && current.None? ==> outcome == Alert(ErrorText)
      ensures result.Some? <==> user.Some? && !old(lessonCompleted) && current.Some?
      ensures result.None? ==>
        db.progress == old(db.progress) && db.users == old(db.users)
        && lessonCompleted == old(lessonCompleted) && completionMessage == old(completionMessage)
      ensures result.Some? ==>
        CU.Recording(result.value, db.progress, db.users)
        == CU.Record(old(db.progress), old(db.users), user.value, courseId, OrText(current.value.moduleId, ""),
                     lessonId, PointsOf(current.value), now, faults)
      ensures result.Some? && result.value.Success? ==>
        outcome == Shown && lessonCompleted
        && completionMessage == Some(MessageFor(result.value.value, PointsOf(current.value)))
      ensures result.Some? && result.value.Failure? ==>
        outcome == Alert(OrText(Some(result.value.error), FailedText))
        && lessonCompleted == old(lessonCompleted) && completionMessage == old(completionMessage)
    {
      result := None;
      if user.None? {
        return RedirectToLogin, None;
      }
      if lessonCompleted {
        return Alert(AlreadyCompletedText), None;
      }
      isCompleting := true;
      if current.None? {
        isCompleting := false;
        return Alert(ErrorText), None;
      }
      var points := PointsOf(current.value);
      var r := CU.RecordLessonCompletion(db, user.value, courseId, OrText(current.value.moduleId, ""),
                                         lessonId, points, now, faults);
      result := Some(r);
      if r.Success? {
        lessonCompleted := true;
        completionMessage := Some(MessageFor(r.value, points));
        outcome := Shown;
      } else {
        outcome := Alert(OrText(Some(r.error), FailedText));
      }
      isCompleting := false;
    }
  }
}
