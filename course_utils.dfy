/** The course helpers over the database: enrolling, reading a lesson's
    progress, recording a completion with its points on the flat level
    scale, the course percentage and marking a course completed. */
module CourseUtils {
  import opened Wrappers
  import opened Seqs
  import opened Catalog
  import opened Percent
  import opened FlatLevel
  import opened Backend

  // ---------------------------------------------------------------------
  // Enrollment

  /** `enrollCourse`: a plain insert of an "in-progress" enrollment. */
  method EnrollCourse(db: Database, userId: string, courseId: string, fault: Option<DbError>)
    returns (r: Result<()>)
    modifies db`enrollments
    ensures r.Success? <==> fault.None?
    ensures r.Failure? ==> r.error == fault.value.message && db.enrollments == old(db.enrollments)
    ensures r.Success? ==> db.enrollments == old(db.enrollments) + [EnrollmentRow(userId, courseId, "in-progress")]
  {
    if fault.Some? {
      return Failure(fault.value.message);
    }
    db.enrollments := db.enrollments + [EnrollmentRow(userId, courseId, "in-progress")];
    return Success(());
  }

  // ---------------------------------------------------------------------
  // Progress rows

  /** The filter `.eq("user_id", userId).eq("lesson_id", lessonId)`. */
  function ProgressMatches(userId: string, lessonId: string): ProgressRow -> bool {
    (p: ProgressRow) => p.userId == userId && p.lessonId == lessonId
  }

  function ProgressFor(rows: seq<ProgressRow>, userId: string, lessonId: string): seq<ProgressRow> {
    Filter(rows, ProgressMatches(userId, lessonId))
  }

  /** The conflict key of `progress`: at most one row per user and lesson. */
  ghost predicate ProgressUnique(rows: seq<ProgressRow>) {
    forall i, j :: 0 <= i < j < |rows| ==>
      rows[i].userId != rows[j].userId || rows[i].lessonId != rows[j].lessonId
  }

  /** `fetchLessonProgress`: the row when exactly one matches; no row, several
      rows and a failing call all give null. */
  method FetchLessonProgress(db: Database, userId: string, lessonId: string, fault: Option<DbError>)
    returns (r: Option<ProgressRow>)
    ensures r.Some? <==> fault.None? && |ProgressFor(db.progress, userId, lessonId)| == 1
    ensures r.Some? ==> r.value in db.progress && r.value.userId == userId && r.value.lessonId == lessonId
  {
    FilterMembers(db.progress, ProgressMatches(userId, lessonId));
    var reply := Single(ProgressFor(db.progress, userId, lessonId), fault);
    if reply.Error? && reply.err.code == NotSingleCode {
      return None;
    }
    if reply.Error? {
      return None;
    }
    return Some(reply.data);
  }

  /** With the conflict key kept, a user's lesson has a row exactly when one
      row matches. */
  lemma ProgressForUnique(rows: seq<ProgressRow>, userId: string, lessonId: string)
    requires ProgressUnique(rows)
    ensures |ProgressFor(rows, userId, lessonId)| <= 1
    ensures |ProgressFor(rows, userId, lessonId)| == 1 <==>
      exists i :: 0 <= i < |rows| && rows[i].userId == userId && rows[i].lessonId == lessonId
  {
    ProgressForAtMostOne(rows, userId, lessonId);
    FilterMembers(rows, ProgressMatches(userId, lessonId));
    FilterAllOrNone(rows, ProgressMatches(userId, lessonId));
  }

  lemma {:induction false} ProgressForAtMostOne(rows: seq<ProgressRow>, userId: string, lessonId: string)
    requires ProgressUnique(rows)
    ensures |ProgressFor(rows, userId, lessonId)| <= 1
  {
    if rows != [] {
      var rest := rows[1..];
      assert ProgressUnique(rest) by {
        forall i, j | 0 <= i < j < |rest|
          ensures rest[i].userId != rest[j].userId || rest[i].lessonId != rest[j].lessonId
        {
          assert rest[i] == rows[i + 1] && rest[j] == rows[j + 1];
        }
      }
      ProgressForAtMostOne(rest, userId, lessonId);
      if rows[0].userId == userId && rows[0].lessonId == lessonId {
        assert forall i :: 0 <= i < |rest| ==> rest[i] == rows[i + 1];
        FilterAllOrNone(rest, ProgressMatches(userId, lessonId));
      }
    }
  }

  /** Two progress rows share the conflict key (user, lesson). */
  predicate SameKey(a: ProgressRow, b: ProgressRow) {
    a.userId == b.userId && a.lessonId == b.lessonId
  }

  /** `upsert(row, { onConflict: "user_id,lesson_id" })`: the rows with the
      row's key are replaced by it; when there is none it is appended. */
  function UpsertProgress(rows: seq<ProgressRow>, row: ProgressRow): (r: seq<ProgressRow>)
    ensures |r| == if exists i :: 0 <= i < |rows| && SameKey(rows[i], row) then |rows| else |rows| + 1
    ensures forall i :: 0 <= i < |rows| ==> r[i] == if SameKey(rows[i], row) then row else rows[i]
    ensures |r| > |rows| ==> r[|rows|] == row
    ensures row in r
    ensures ProgressUnique(rows) ==> ProgressUnique(r)
  {
    if exists i :: 0 <= i < |rows| && SameKey(rows[i], row) then
      var r := seq(|rows|, i requires 0 <= i < |rows| => if SameKey(rows[i], row) then row else rows[i]);
      var k :| 0 <= k < |rows| && SameKey(rows[k], row);
      assert r[k] == row;
      r
    else
      rows + [row]
  }

  /** A completion already stands for the user's lesson: the single row
      carries a completion time. */
  predicate CompletedRecorded(rows: seq<ProgressRow>, userId: string, lessonId: string) {
    var found := ProgressFor(rows, userId, lessonId);
    |found| == 1 && found[0].completedAt.Some? && found[0].completedAt.value != ""
  }

  /** After an upsert the key has exactly the upserted row. */
  lemma UpsertThenFind(rows: seq<ProgressRow>, row: ProgressRow)
    requires ProgressUnique(rows)
    ensures ProgressFor(UpsertProgress(rows, row), row.userId, row.lessonId) == [row]
  {
    var r := UpsertProgress(rows, row);
    var p := ProgressMatches(row.userId, row.lessonId);
    ProgressForUnique(r, row.userId, row.lessonId);
    FilterMembers(r, p);
    var k :| 0 <= k < |r| && r[k] == row;
    assert p(r[k]);
  }

  // ---------------------------------------------------------------------
  // Recording a completion

  /** What `recordLessonCompletion` reports on success. */
  datatype Completion =
    | AlreadyCompleted
    | Awarded(newLevel: int, totalPoints: int, leveledUp: bool)

  /** The faults the four calls of `recordLessonCompletion` may meet: the
      check for an existing row, the upsert, the user read and the user
      update. */
  datatype Faults = Faults(check: Option<DbError>, progress: Option<DbError>,
                           user: Option<DbError>, update: Option<DbError>)

  /** The answer of `recordLessonCompletion` and the two tables it leaves. */
  datatype Recording = Recording(result: Result<Completion>, progress: seq<ProgressRow>,
                                 users: map<string, UserRow>)

  /** `recordLessonCompletion` on the tables' values: a lesson whose progress
      row already carries a completion time earns nothing again. Otherwise
      the row is upserted, and then the user's points grow by `points` and
      the level is recomputed on the flat scale. A failed step reports its
      message; the steps before it stay done. The check's own error is
      ignored: a failing check reads as "no row". */
  function Record(progress: seq<ProgressRow>, users: map<string, UserRow>, userId: string,
                  courseId: string, moduleId: string, lessonId: string, points: int, now: string,
                  faults: Faults): Recording
  {
    var existing := Single(ProgressFor(progress, userId, lessonId), faults.check);
    if existing.Data? && existing.data.completedAt.Some? && existing.data.completedAt.value != "" then
      Recording(Success(AlreadyCompleted), progress, users)
    else if faults.progress.Some? then
      Recording(Failure(faults.progress.value.message), progress, users)
    else
      var award := Award(users, userId, points, faults);
      Recording(award.result, UpsertProgress(progress, ProgressRow(userId, courseId, moduleId, lessonId, Some(now), points)),
                award.users)
  }

  /** The points step of `recordLessonCompletion`, once the row is upserted:
      the user is read, then the new total and its level are written. */
  function Award(users: map<string, UserRow>, userId: string, points: int, faults: Faults): Recording {
    var user := Single(if userId in users then [users[userId]] else [], faults.user);
    if user.Error? then
      Recording(Failure(user.err.message), [], users)
    else if faults.update.Some? then
      Recording(Failure(faults.update.value.message), [], users)
    else
      var before := OrNumber(user.data.totalPoints, 0);
      Recording(Success(Awarded(BandLevel(before + points), before + points, BandLevel(before + points) > BandLevel(before))),
                [], users[userId := UserRow(Some(before + points), Some(BandLevel(before + points)))])
  }

  /** A lesson already completed is answered as such and changes nothing;
      otherwise a failing upsert changes nothing, and any other outcome
      leaves the row upserted. */
  lemma RecordSteps(progress: seq<ProgressRow>, users: map<string, UserRow>, userId: string,
                    courseId: string, moduleId: string, lessonId: string, points: int, now: string,
                    faults: Faults)
    ensures var rec := Record(progress, users, userId, courseId, moduleId, lessonId, points, now, faults);
      var found := Single(ProgressFor(progress, userId, lessonId), faults.check);
      var done := found.Data? && found.data.completedAt.Some? && found.data.completedAt.value != "";
      (done ==> rec == Recording(Success(AlreadyCompleted), progress, users))
      && (!done && faults.progress.Some? ==> rec == Recording(Failure(faults.progress.value.message), progress, users))
      && (!done && faults.progress.None? ==>
            rec.progress == UpsertProgress(progress, ProgressRow(userId, courseId, moduleId, lessonId, Some(now), points)))
  {
  }

  /** An award adds the points to the previous total (0 when unset), puts
      the level on the flat scale and reports a level-up exactly when the
      level grew; only the user's row changes. */
  lemma RecordAward(progress: seq<ProgressRow>, users: map<string, UserRow>, userId: string,
                    courseId: string, moduleId: string, lessonId: string, points: int, now: string,
                    faults: Faults)
    ensures var rec := Record(progress, users, userId, courseId, moduleId, lessonId, points, now, faults);
      rec.result.Success? && rec.result.value.Awarded? ==>
        userId in users
        && var before := OrNumber(users[userId].totalPoints, 0);
        rec.result.value.totalPoints == before + points
        && rec.result.value.newLevel == BandLevel(before + points)
        && (rec.result.value.leveledUp <==> BandLevel(before + points) > BandLevel(before))
        && rec.users == users[userId := UserRow(Some(before + points), Some(BandLevel(before + points)))]
  {
    var rec := Record(progress, users, userId, courseId, moduleId, lessonId, points, now, faults);
    if rec.result.Success? && rec.result.value.Awarded? {
      var award := Award(users, userId, points, faults);
      assert rec.result == award.result && rec.users == award.users;
      AwardSpec(users, userId, points, faults);
    }
  }

  /** The points step on its own: an award adds to the previous total. */
  lemma AwardSpec(users: map<string, UserRow>, userId: string, points: int, faults: Faults)
    ensures var award := Award(users, userId, points, faults);
      award.result.Success? ==>
        userId in users
        && var before := OrNumber(users[userId].totalPoints, 0);
        award.result == Success(Awarded(BandLevel(before + points), before + points, BandLevel(before + points) > BandLevel(before)))
        && award.users == users[userId := UserRow(Some(before + points), Some(BandLevel(before + points)))]
    ensures var award := Award(users, userId, points, faults);
      award.result.Failure? ==> award.users == users
  {
  }

  /** A failed recording leaves the users alone. */
  lemma RecordFailureKeepsUsers(progress: seq<ProgressRow>, users: map<string, UserRow>, userId: string,
                                courseId: string, moduleId: string, lessonId: string, points: int, now: string,
                                faults: Faults)
    ensures var rec := Record(progress, users, userId, courseId, moduleId, lessonId, points, now, faults);
      rec.result.Failure? ==> rec.users == users
  {
    var existing := Single(ProgressFor(progress, userId, lessonId), faults.check);
    if !(existing.Data? && existing.data.completedAt.Some? && existing.data.completedAt.value != "")
       && faults.progress.None? {
      AwardSpec(users, userId, points, faults);
    }
  }

  /** The call succeeds exactly when a completion already stood (and the
      check went through) or every step went through; "already completed"
      is answered only for a recorded completion. */
  lemma RecordSucceedsIff(progress: seq<ProgressRow>, users: map<string, UserRow>, userId: string,
                          courseId: string, moduleId: string, lessonId: string, points: int, now: string,
                          faults: Faults)
    ensures var rec := Record(progress, users, userId, courseId, moduleId, lessonId, points, now, faults);
      rec.result.Success? && rec.result.value.AlreadyCompleted? ==>
        faults.check.None? && CompletedRecorded(progress, userId, lessonId)
    ensures var rec := Record(progress, users, userId, courseId, moduleId, lessonId, points, now, faults);
      rec.result.Success? <==>
        (CompletedRecorded(progress, userId, lessonId) && faults.check.None?)
        || (faults.progress.None? && userId in users && faults.user.None? && faults.update.None?)
  {
    var found := Single(ProgressFor(progress, userId, lessonId), faults.check);
    if CompletedRecorded(progress, userId, lessonId) && faults.check.None? {
      assert found.Data? && found.data.completedAt.Some? && found.data.completedAt.value != "";
    }
  }

  /** The conflict key survives a recording, and with it kept a success
      leaves a completion recorded for the user's lesson. */
  lemma RecordKeepsKey(progress: seq<ProgressRow>, users: map<string, UserRow>, userId: string,
                       courseId: string, moduleId: string, lessonId: string, points: int, now: string,
                       faults: Faults)
    requires ProgressUnique(progress)
    ensures ProgressUnique(Record(progress, users, userId, courseId, moduleId, lessonId, points, now, faults).progress)
    ensures now != "" && Record(progress, users, userId, courseId, moduleId, lessonId, points, now, faults).result.Success? ==>
      CompletedRecorded(Record(progress, users, userId, courseId, moduleId, lessonId, points, now, faults).progress, userId, lessonId)
  {
    var rec := Record(progress, users, userId, courseId, moduleId, lessonId, points, now, faults);
    var row := ProgressRow(userId, courseId, moduleId, lessonId, Some(now), points);
    RecordSteps(progress, users, userId, courseId, moduleId, lessonId, points, now, faults);
    RecordSucceedsIff(progress, users, userId, courseId, moduleId, lessonId, points, now, faults);
    var found := Single(ProgressFor(progress, userId, lessonId), faults.check);
    if !(found.Data? && found.data.completedAt.Some? && found.data.completedAt.value != "") && faults.progress.None? {
      UpsertThenFind(progress, row);
      assert rec.progress == UpsertProgress(progress, row);
      assert ProgressFor(rec.progress, userId, lessonId) == [row];
    }
  }

  /** Points are awarded once per lesson: after a successful recording, a
      second one for the same user and lesson, whose check goes through,
      answers "already completed" and leaves both tables as the first left
      them, whatever its points, time and other faults. */
  lemma RecordTwiceAwardsOnce(progress: seq<ProgressRow>, users: map<string, UserRow>, userId: string,
                              courseId: string, moduleId: string, lessonId: string, points: int, now: string,
                              faults: Faults, courseId2: string, moduleId2: string, points2: int, now2: string,
                              faults2: Faults)
    requires ProgressUnique(progress) && now != ""
    requires Record(progress, users, userId, courseId, moduleId, lessonId, points, now, faults).result.Success?
    requires faults2.check.None?
    ensures var first := Record(progress, users, userId, courseId, moduleId, lessonId, points, now, faults);
      Record(first.progress, first.users, userId, courseId2, moduleId2, lessonId, points2, now2, faults2)
        == Recording(Success(AlreadyCompleted), first.progress, first.users)
  {
    var first := Record(progress, users, userId, courseId, moduleId, lessonId, points, now, faults);
    RecordKeepsKey(progress, users, userId, courseId, moduleId, lessonId, points, now, faults);
    assert CompletedRecorded(first.progress, userId, lessonId);
    var found := Single(ProgressFor(first.progress, userId, lessonId), faults2.check);
    assert found.Data? && found.data.completedAt.Some? && found.data.completedAt.value != "";
  }

  /** `recordLessonCompletion` on the database: the answer and the two
      tables are the ones `Record` gives. */
  method RecordLessonCompletion(db: Database, userId: string, courseId: string, moduleId: string,
                                lessonId: string, points: int, now: string, faults: Faults)
    returns (r: Result<Completion>)
    modifies db`progress, db`users
    ensures Recording(r, db.progress, db.users)
         == Record(old(db.progress), old(db.users), userId, courseId, moduleId, lessonId, points, now, faults)
  {
    var existing := Single(ProgressFor(db.progress, userId, lessonId), faults.check);
    if existing.Data? && existing.data.completedAt.Some? && existing.data.completedAt.value != "" {
      return Success(AlreadyCompleted);
    }
    if faults.progress.Some? {
      return Failure(faults.progress.value.message);
    }
    db.progress := UpsertProgress(db.progress, ProgressRow(userId, courseId, moduleId, lessonId, Some(now), points));
    var user := Single(if userId in db.users then [db.users[userId]] else [], faults.user);
    if user.Error? {
      return Failure(user.err.message);
    }
    var oldPoints := OrNumber(user.data.totalPoints, 0);
    var newTotalPoints := oldPoints + points;
    var newLevel := BandLevel(newTotalPoints);
    if faults.update.Some? {
      return Failure(faults.update.value.message);
    }
    db.users := db.users[userId := UserRow(Some(newTotalPoints), Some(newLevel))];
    return Success(Awarded(newLevel, newTotalPoints, newLevel > BandLevel(oldPoints)));
  }

  // ---------------------------------------------------------------------
  // Course percentage

  datatype CourseProgress = CourseProgress(completedLessons: nat, totalLessons: nat, percentage: Percentage)

  /** The filter `.eq("user_id", u).eq("course_id", c).not("completed_at", "is", null)`. */
  function CompletedIn(rows: seq<ProgressRow>, userId: string, courseId: string): seq<ProgressRow> {
    Filter(rows, (p: ProgressRow) => p.userId == userId && p.courseId == courseId && p.completedAt.Some?)
  }

  /** Every module carries its `lessons` array (otherwise `lessons.length` throws). */
  predicate LessonsPresent(ms: seq<Module>) {
    forall i :: 0 <= i < |ms| ==> ms[i].lessons.Some?
  }

  /** `getCourseProgress`: zeros when the course cannot be read or a module
      has no lessons array; a zero count of completions when the progress
      query fails; otherwise the completed rows over all lessons, rounded. */
  method GetCourseProgress(db: Database, userId: string, courseId: string,
                           courseFault: Option<DbError>, queryFault: Option<DbError>)
    returns (r: CourseProgress)
    ensures courseFault.Some? || courseId !in db.courses ==> r == CourseProgress(0, 0, Rounded(0))
    ensures courseFault.None? && courseId in db.courses ==>
      var ms := db.courses[courseId].modules;
      (!LessonsPresent(ms) ==> r == CourseProgress(0, 0, Rounded(0)))
      && (LessonsPresent(ms) && queryFault.Some? ==> r == CourseProgress(0, |Flatten(ms)|, Rounded(0)))
      && (LessonsPresent(ms) && queryFault.None? ==>
            r.totalLessons == |Flatten(ms)|
            && r.completedLessons == |CompletedIn(db.progress, userId, courseId)|
            && r.percentage == PercentOf(r.completedLessons, r.totalLessons))
  {
    var course: Option<Course> := None;
    if courseFault.None? && courseId in db.courses {
      course := Some(db.courses[courseId]);
    }
    if course.None? {
      return CourseProgress(0, 0, Rounded(0));
    }
    var ms := course.value.modules;
    if !LessonsPresent(ms) {
      return CourseProgress(0, 0, Rounded(0));
    }
    FlattenLength(ms);
    var totalLessons := TotalLessons(ms);
    if queryFault.Some? {
      return CourseProgress(0, totalLessons, Rounded(0));
    }
    var completedLessons := |CompletedIn(db.progress, userId, courseId)|;
    return CourseProgress(completedLessons, totalLessons, PercentOf(completedLessons, totalLessons));
  }

  /** The percentage is 100 when every lesson is done and 0 when none is, and
      it stays within 0..100 while the completions do not outnumber the lessons. */
  lemma CourseProgressBounds(completed: nat, total: nat)
    requires 0 < total && completed <= total
    ensures PercentOf(completed, total).Rounded?
    ensures 0 <= PercentOf(completed, total).value <= 100
    ensures completed == total ==> PercentOf(completed, total) == Rounded(100)
    ensures completed == 0 ==> PercentOf(completed, total) == Rounded(0)
  {
    RoundPercentInRange(completed, total);
  }

  /** Nothing ties a completion row to a lesson of its course, so a course
      whose modules hold no lessons can still count completions; the
      percentage is then Infinity, not NaN. */
  lemma CompletionsWithoutLessons(completed: nat)
    requires completed > 0
    ensures PercentOf(completed, 0) == Infinity
    ensures PercentOf(0, 0) == NotANumber
  {
  }

  // ---------------------------------------------------------------------
  // Course completion

  /** `completions` is unique on the user and the course. */
  ghost predicate CompletionsUnique(rows: seq<CompletionRow>) {
    forall i, j :: 0 <= i < j < |rows| ==>
      rows[i].userId != rows[j].userId || rows[i].courseId != rows[j].courseId
  }

  predicate HasCompletion(rows: seq<CompletionRow>, userId: string, courseId: string) {
    exists i :: 0 <= i < |rows| && rows[i].userId == userId && rows[i].courseId == courseId
  }

  /** `.update({ status: "completed" }).eq("user_id", u).eq("course_id", c)`. */
  function MarkEnrollmentsCompleted(rows: seq<EnrollmentRow>, userId: string, courseId: string): (r: seq<EnrollmentRow>)
    ensures |r| == |rows|
    ensures forall i :: 0 <= i < |rows| ==>
      r[i] == if rows[i].userId == userId && rows[i].courseId == courseId then rows[i].(status := "completed") else rows[i]
  {
    seq(|rows|, i requires 0 <= i < |rows| =>
      if rows[i].userId == userId && rows[i].courseId == courseId then rows[i].(status := "completed") else rows[i])
  }

  /** The error the database raises for a second completion of a course. */
  const DuplicateCompletion := DbError(UniqueViolationCode, "duplicate key value violates unique constraint")

  /** `markCourseCompleted`: insert the completion, where a unique violation
      means the course was already completed and is not an error; then set
      the user's enrollments in the course to "completed". */
  method MarkCourseCompleted(db: Database, userId: string, courseId: string,
                             insertFault: Option<DbError>, updateFault: Option<DbError>)
    returns (r: Result<()>)
    modifies db`completions, db`enrollments
    ensures var insertError :=
        if insertFault.Some? then insertFault
        else if HasCompletion(old(db.completions), userId, courseId) then Some(DuplicateCompletion)
        else None;
      (insertError.Some? && insertError.value.code != UniqueViolationCode ==>
         r == Failure(insertError.value.message)
         && db.completions == old(db.completions) && db.enrollments == old(db.enrollments))
      && (insertError.None? || insertError.value.code == UniqueViolationCode ==>
            db.completions == (if insertError.None? then old(db.completions) + [CompletionRow(userId, courseId, true)]
                               else old(db.completions))
            && (updateFault.Some? ==> r == Failure(updateFault.value.message) && db.enrollments == old(db.enrollments))
            && (updateFault.None? ==> r.Success? && db.enrollments == MarkEnrollmentsCompleted(old(db.enrollments), userId, courseId)))
    ensures CompletionsUnique(old(db.completions)) ==> CompletionsUnique(db.completions)
    ensures insertFault.None? && r.Success? ==> HasCompletion(db.completions, userId, courseId)
  {
    var insertError := insertFault;
    if insertError.None? && HasCompletion(db.completions, userId, courseId) {
      insertError := Some(DuplicateCompletion);
    }
    if insertError.Some? && insertError.value.code != UniqueViolationCode {
      return Failure(insertError.value.message);
    }
    if insertError.None? {
      var completions := db.completions + [CompletionRow(userId, courseId, true)];
      assert completions[|completions| - 1].userId == userId && completions[|completions| - 1].courseId == courseId;
      db.completions := completions;
    }
    if updateFault.Some? {
      return Failure(updateFault.value.message);
    }
    db.enrollments := MarkEnrollmentsCompleted(db.enrollments, userId, courseId);
    return Success(());
  }
}
