/** The course service over the database: where a lesson's markdown is
    fetched from, idempotent enrollment, the enrollment check, review
    requests with their empty fields stored as null, and the name shown for
    a submitter. */
module CourseService {
  import opened Wrappers
  import opened Seqs
  import opened Text
  import opened Backend

  // ---------------------------------------------------------------------
  // Lesson markdown

  const RawCourses := "https://raw.githubusercontent.com/levelupdevs1/levelup-curriculum/main/src/courses/"
  const AbsolutePrefix := "/src/courses/"
  const RelativePrefix := "src/courses/"

  /** The path of a lesson inside its course folder: a leading
      "/src/courses/" is removed, or else a leading "src/courses/"; only one
      prefix is ever removed. */
  function LessonPath(filePath: string): (r: string)
    ensures |r| <= |filePath| && r == filePath[|filePath| - |r|..]
  {
    if StartsWith(filePath, AbsolutePrefix) then ReplaceFirst(filePath, AbsolutePrefix, "")
    else if StartsWith(filePath, RelativePrefix) then ReplaceFirst(filePath, RelativePrefix, "")
    else filePath
  }

  /** The raw URL the markdown is fetched from. */
  function LessonUrl(courseId: string, filePath: string): (r: string)
    ensures StartsWith(r, RawCourses)
  {
    RawCourses + courseId + "/" + LessonPath(filePath)
  }

  /** Either prefix is removed exactly, whatever follows it; a path with
      neither prefix is kept. So the three spellings of a path give one URL. */
  lemma LessonPathForms(courseId: string, q: string)
    ensures LessonPath(AbsolutePrefix + q) == q
    ensures LessonPath(RelativePrefix + q) == q
    ensures !StartsWith(q, AbsolutePrefix) && !StartsWith(q, RelativePrefix) ==>
      LessonPath(q) == q
      && LessonUrl(courseId, AbsolutePrefix + q) == LessonUrl(courseId, q)
      && LessonUrl(courseId, RelativePrefix + q) == LessonUrl(courseId, q)
  {
    assert StartsWith(AbsolutePrefix + q, AbsolutePrefix);
    assert (AbsolutePrefix + q)[|AbsolutePrefix|..] == q;
    var rel := RelativePrefix + q;
    assert rel[0] == 's' != '/';
    assert !StartsWith(rel, AbsolutePrefix);
    assert StartsWith(rel, RelativePrefix);
    assert rel[|RelativePrefix|..] == q;
  }

  /** The answer to a request for the raw file. */
  datatype Response = Ok(content: string) | NotOk(statusText: string) | Thrown(message: string)

  /** `fetchLessonMarkdown`, the network being the function `fetch`: the
      content when the response is ok, a failure otherwise. */
  function FetchLessonMarkdown(courseId: string, filePath: string, fetch: string -> Response): (r: Result<string>)
    ensures r.Success? <==> fetch(LessonUrl(courseId, filePath)).Ok?
    ensures r.Success? ==> r.value == fetch(LessonUrl(courseId, filePath)).content
  {
    match fetch(LessonUrl(courseId, filePath))
    case Ok(content) => Success(content)
    case NotOk(statusText) => Failure("Failed to fetch lesson: " + statusText)
    case Thrown(message) => Failure(message)
  }

  // ---------------------------------------------------------------------
  // Enrollment

  /** The filter `.eq("user_id", userId).eq("course_id", courseId)`. */
  function EnrollmentMatches(userId: string, courseId: string): EnrollmentRow -> bool {
    (e: EnrollmentRow) => e.userId == userId && e.courseId == courseId
  }

  function EnrollmentsFor(rows: seq<EnrollmentRow>, userId: string, courseId: string): seq<EnrollmentRow> {
    Filter(rows, EnrollmentMatches(userId, courseId))
  }

  datatype Enrolled = AlreadyEnrolled(enrollment: EnrollmentRow) | NewlyEnrolled(enrollment: EnrollmentRow)

  /** `enrollInCourse`: when the check finds the enrollment it is returned
      and nothing is inserted; otherwise one "in-progress" enrollment is
      inserted. The check's error is ignored, so a failing check inserts. */
  method EnrollInCourse(db: Database, userId: string, courseId: string,
                        checkFault: Option<DbError>, insertFault: Option<DbError>)
    returns (r: Result<Enrolled>)
    modifies db`enrollments
    ensures var found := checkFault.None? && |EnrollmentsFor(old(db.enrollments), userId, courseId)| == 1;
      (found ==> r == Success(AlreadyEnrolled(EnrollmentsFor(old(db.enrollments), userId, courseId)[0]))
                 && db.enrollments == old(db.enrollments))
      && (!found && insertFault.Some? ==> r == Failure(insertFault.value.message) && db.enrollments == old(db.enrollments))
      && (!found && insertFault.None? ==>
            r == Success(NewlyEnrolled(EnrollmentRow(userId, courseId, "in-progress")))
            && db.enrollments == old(db.enrollments) + [EnrollmentRow(userId, courseId, "in-progress")])
    ensures checkFault.None? && |EnrollmentsFor(old(db.enrollments), userId, courseId)| <= 1 ==>
      |EnrollmentsFor(db.enrollments, userId, courseId)| <= 1
      && (r.Success? ==> |EnrollmentsFor(db.enrollments, userId, courseId)| == 1)
  {
    var existing := Single(EnrollmentsFor(db.enrollments, userId, courseId), checkFault);
    if existing.Data? {
      return Success(AlreadyEnrolled(existing.data));
    }
    if insertFault.Some? {
      return Failure(insertFault.value.message);
    }
    var row := EnrollmentRow(userId, courseId, "in-progress");
    FilterAppend(db.enrollments, [row], EnrollmentMatches(userId, courseId));
    db.enrollments := db.enrollments + [row];
    return Success(NewlyEnrolled(row));
  }

  /** `isEnrolled`: "no rows" (PGRST116) is not an error; enrolled when a
      row came back. */
  method IsEnrolled(db: Database, userId: string, courseId: string, fault: Option<DbError>)
    returns (r: Result<bool>)
    ensures r.Success? <==> fault.None? || fault.value.code == NotSingleCode
    ensures r.Failure? ==> r.error == fault.value.message
    ensures r.Success? ==> (r.value <==> fault.None? && |EnrollmentsFor(db.enrollments, userId, courseId)| == 1)
  {
    var reply := Single(EnrollmentsFor(db.enrollments, userId, courseId), fault);
    if reply.Error? && reply.err.code != NotSingleCode {
      return Failure(reply.err.message);
    }
    return Success(reply.Data?);
  }

  /** With at most one enrollment per user and course, the check answers
      exactly whether the user is enrolled. */
  lemma EnrolledIffRow(rows: seq<EnrollmentRow>, userId: string, courseId: string)
    requires |EnrollmentsFor(rows, userId, courseId)| <= 1
    ensures |EnrollmentsFor(rows, userId, courseId)| == 1 <==>
      exists i :: 0 <= i < |rows| && rows[i].userId == userId && rows[i].courseId == courseId
  {
    FilterMembers(rows, EnrollmentMatches(userId, courseId));
    FilterAllOrNone(rows, EnrollmentMatches(userId, courseId));
  }

  // ---------------------------------------------------------------------
  // Review requests and submitters

  /** `x || null` for a text field. */
  function NullIfEmpty(x: Option<string>): (r: Option<string>)
    ensures r.Some? ==> r.value != "" && r == x
    ensures x.Some? && x.value != "" ==> r == x
  {
    if x.Some? && x.value != "" then x else None
  }

  /** The fields of a review request as the form hands them over. */
  datatype RequestInput = RequestInput(url: Option<string>, githubUrl: Option<string>, question: Option<string>)

  /** `submitReviewRequest`: one "open" request with empty fields stored as null. */
  method SubmitReviewRequest(db: Database, userId: string, courseId: string, lessonId: string,
                             request: RequestInput, now: string, fault: Option<DbError>)
    returns (r: Result<RequestRow>)
    modifies db`reviewRequests
    ensures r.Success? <==> fault.None?
    ensures r.Failure? ==> db.reviewRequests == old(db.reviewRequests)
    ensures r.Success? ==>
      db.reviewRequests == old(db.reviewRequests) + [r.value]
      && r.value.status == "open" && r.value.createdAt == now
      && r.value.userId == userId && r.value.courseId == courseId && r.value.lessonId == lessonId
      && r.value.url == NullIfEmpty(request.url)
      && r.value.githubUrl == NullIfEmpty(request.githubUrl)
      && r.value.question == NullIfEmpty(request.question)
  {
    if fault.Some? {
      return Failure(fault.value.message);
    }
    var row := RequestRow(userId, courseId, lessonId, NullIfEmpty(request.url),
                          NullIfEmpty(request.githubUrl), NullIfEmpty(request.question), "open", now);
    db.reviewRequests := db.reviewRequests + [row];
    return Success(row);
  }

  /** The joined user of a submission; it may be missing. */
  datatype Submitter = Submitter(email: Option<string>, fullName: Option<string>)

  /** `users?.full_name || users?.email || "Anonymous"`. */
  function SubmitterName(user: Option<Submitter>): (r: string)
    ensures r != ""
    ensures user.Some? && user.value.fullName.Some? && user.value.fullName.value != "" ==> r == user.value.fullName.value
    ensures user.None? ==> r == "Anonymous"
  {
    var fullName := if user.Some? then user.value.fullName else None;
    var email := if user.Some? then user.value.email else None;
    OrText(fullName, OrText(email, "Anonymous"))
  }

  /** The email is shown only when the full name is empty, and "Anonymous"
      only when both are. */
  lemma SubmitterNameFallback(user: Submitter)
    ensures (user.fullName.None? || user.fullName.value == "") && user.email.Some? && user.email.value != "" ==>
      SubmitterName(Some(user)) == user.email.value
    ensures (user.fullName.None? || user.fullName.value == "") && (user.email.None? || user.email.value == "") ==>
      SubmitterName(Some(user)) == "Anonymous"
  {
  }
}
