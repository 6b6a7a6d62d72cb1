/** The mock course provider: the course list with completion and locking,
    the user's experience, level and coins, assignment submissions with their
    peer reviews, review requests, and certificates. */
module CourseContext {
  import opened Wrappers
  import opened Catalog
  import opened Percent
  import opened Dict
  import opened Seqs
  import opened FlatLevel
  import SF = SubmissionForm
  import RF = ReviewRequestForm
  import Text

  // ---------------------------------------------------------------------
  // Records

  datatype Stats = Stats(
    exp: int,
    level: int,
    coins: int,
    totalCoursesCompleted: int,
    totalLessonsCompleted: int,
    streak: int)

  /** What the submission form hands over. */
  type AssignmentPayload = SF.AssignmentPayload

  datatype PeerReview = PeerReview(id: string, reviewerId: string, rating: int, feedback: string, submittedAt: string)

  /** A stored submission. `ReviewsOnly` is the object left behind when a
      review is recorded under an id that holds no submission: spreading a
      missing entry contributes nothing but the review list. */
  datatype Submission =
    | Submission(
        id: string,
        courseId: string,
        lessonId: string,
        payload: AssignmentPayload,
        submittedAt: string,
        status: string,
        peerReviews: seq<PeerReview>,
        needsPeerReview: bool,
        authorId: string)
    | ReviewsOnly(peerReviews: seq<PeerReview>)

  /** What the review request form hands over. */
  type RequestPayload = RF.ReviewRequest

  /** The feedback object a caller hands to `submitReviewFeedback`. The keys
      `id`, `userId`, `userName` and `submittedAt` are optional: when present
      they take part in the spread that builds the stored review. */
  datatype Feedback = Feedback(
    id: Option<string>,
    userId: Option<string>,
    userName: Option<string>,
    feedback: string,
    rating: Option<int>,
    submittedAt: Option<string>)

  datatype RequestReview = RequestReview(
    id: string,
    userId: string,
    userName: string,
    feedback: string,
    rating: Option<int>,
    submittedAt: string)

  datatype ReviewRequest = ReviewRequest(
    id: string,
    userId: string,
    userName: string,
    payload: RequestPayload,
    submittedAt: string,
    status: string,
    reviews: seq<RequestReview>)

  datatype Certificate = Certificate(
    id: string,
    courseId: string,
    courseName: string,
    isClaimable: bool,
    claimed: bool,
    tokenId: Option<string>,
    claimedAt: Option<string>)

  /** A coin notification; the provider shows one per positive coin award. */
  datatype Notification = CoinsEarned(amount: int, source: string)

  /** The user the mock provider treats as the signed-in author. */
  const CurrentUserId := "1"

  const InitialStats := Stats(1250, 3, 500, 1, 8, 7)

  // ---------------------------------------------------------------------
  // Experience and coins

  /** Stats after an experience award: the level is recomputed from the new total. */
  function WithExp(s: Stats, amount: int): Stats {
    s.(exp := s.exp + amount, level := BandLevel(s.exp + amount))
  }

  function WithCoins(s: Stats, amount: int): Stats {
    s.(coins := s.coins + amount)
  }

  ghost predicate LevelMatchesExp(s: Stats) {
    s.level == BandLevel(s.exp)
  }

  /** Every experience award leaves the level equal to what the new total
      gives, and a non-negative award never lowers the level. */
  lemma WithExpKeepsLevel(s: Stats, amount: int)
    requires LevelMatchesExp(s)
    ensures LevelMatchesExp(WithExp(s, amount))
    ensures amount >= 0 ==> WithExp(s, amount).level >= s.level
    ensures WithExp(s, amount).coins == s.coins
  {
  }

  /** Experience for completing a lesson, by its kind; 10 when the lesson was not found. */
  function ExpForLesson(lesson: Option<Lesson>): (r: nat)
    ensures r in {10, 15, 25, 50}
    ensures lesson.None? ==> r == 10
    ensures lesson.Some? && lesson.value.kind == "lesson" ==> r == 15
    ensures lesson.Some? && lesson.value.kind == "assignment" ==> r == 25
    ensures lesson.Some? && lesson.value.kind == "project" ==> r == 50
    ensures lesson.Some? && lesson.value.kind !in {"lesson", "assignment", "project"} ==> r == 10
  {
    if lesson.None? then 10
    else match lesson.value.kind
      case "lesson" => 15
      case "assignment" => 25
      case "project" => 50
      case _ => 10
  }

  // ---------------------------------------------------------------------
  // Course updates

  function CountCompleted(ls: seq<Lesson>): (r: nat)
    ensures r <= |ls|
  {
    if ls == [] then 0 else (if ls[0].isCompleted then 1 else 0) + CountCompleted(ls[1..])
  }

  /** Every lesson is counted as completed exactly when every lesson is completed. */
  lemma {:induction false} CountCompletedAll(ls: seq<Lesson>)
    ensures CountCompleted(ls) == |ls| <==> forall i :: 0 <= i < |ls| ==> ls[i].isCompleted
  {
    if ls != [] {
      CountCompletedAll(ls[1..]);
      assert forall i :: 0 < i < |ls| ==> ls[i] == ls[1..][i - 1];
    }
  }

  /** The lesson update of `completeLesson`: the lesson with the id is marked completed. */
  function Completer(lessonId: string): Lesson -> Lesson {
    (l: Lesson) => if l.id == lessonId then l.(isCompleted := true) else l
  }

  /** The lesson update of `unlockNextLesson`: the lesson with the id is unlocked. */
  function Unlocker(lessonId: string): Lesson -> Lesson {
    (l: Lesson) => if l.id == lessonId then l.(isLocked := false) else l
  }

  /** `completeLesson` on one course: the lesson marked, then progress recounted
      over all lessons and the course completed when that rounds to 100. */
  function CompleteInCourse(c: Course, lessonId: string): Course {
    var ms := MapModules(c.modules, Completer(lessonId));
    var all := Flatten(ms);
    var progress := RoundedShare(CountCompleted(all), |all|);
    c.(modules := ms, progress := progress, isCompleted := progress == Some(100))
  }

  /** `unlockNextLesson` on one course: when the lesson has a successor in
      reading order, every lesson carrying the successor's id is unlocked. */
  function UnlockInCourse(c: Course, lessonId: string): Course {
    var all := Flatten(c.modules);
    var idx := IndexOf(all, lessonId);
    if idx != -1 && idx < |all| - 1 then
      c.(modules := MapModules(c.modules, Unlocker(all[idx + 1].id)))
    else c
  }

  function EnrollCourse(c: Course): Course {
    c.(isEnrolled := true, progress := Some(0))
  }

  /** `courses.map(c => c.id === id ? f(c) : c)`. */
  function UpdateCourses(cs: seq<Course>, id: string, f: Course -> Course): (r: seq<Course>)
    ensures |r| == |cs|
    ensures forall i :: 0 <= i < |cs| ==> r[i] == if cs[i].id == id then f(cs[i]) else cs[i]
  {
    if cs == [] then [] else [if cs[0].id == id then f(cs[0]) else cs[0]] + UpdateCourses(cs[1..], id, f)
  }

  function Completing(lessonId: string): Course -> Course {
    (c: Course) => CompleteInCourse(c, lessonId)
  }

  function Unlocking(lessonId: string): Course -> Course {
    (c: Course) => UnlockInCourse(c, lessonId)
  }

  function CompleteLessonIn(cs: seq<Course>, courseId: string, lessonId: string): seq<Course> {
    UpdateCourses(cs, courseId, Completing(lessonId))
  }

  function UnlockNextIn(cs: seq<Course>, courseId: string, lessonId: string): seq<Course> {
    UpdateCourses(cs, courseId, Unlocking(lessonId))
  }

  /** `getLessonById`: the first lesson with the id in the course's reading order. */
  function LessonById(cs: seq<Course>, courseId: string, lessonId: string): Option<Lesson> {
    FindLesson(AllLessons(FindCourse(cs, courseId)), lessonId)
  }

  /** The completion bonus condition, read from the course list it is given. */
  predicate CourseDone(cs: seq<Course>, courseId: string) {
    var c := FindCourse(cs, courseId);
    c.Some? && c.value.isCompleted
  }

  ghost predicate DistinctIds(ls: seq<Lesson>) {
    forall i, j :: 0 <= i < j < |ls| ==> ls[i].id != ls[j].id
  }

  /** `findIndex` by id only looks at the ids. */
  lemma {:induction false} IndexOfSameIds(a: seq<Lesson>, b: seq<Lesson>, id: string)
    requires |a| == |b| && forall i :: 0 <= i < |a| ==> a[i].id == b[i].id
    ensures IndexOf(a, id) == IndexOf(b, id)
  {
    if a != [] && a[0].id != id {
      IndexOfSameIds(a[1..], b[1..], id);
    }
  }

  /** Applying an idempotent lesson update twice, module by module, is applying it once. */
  lemma {:induction false} MapModulesTwice(ms: seq<Module>, f: Lesson -> Lesson)
    requires forall l :: f(f(l)) == f(l)
    ensures MapModules(MapModules(ms, f), f) == MapModules(ms, f)
  {
    if ms != [] {
      MapModulesTwice(ms[1..], f);
      var m := ms[0];
      if m.lessons.Some? {
        var once := MapLessons(m.lessons.value, f);
        assert MapLessons(once, f) == once;
      }
      assert MapModules(ms, f)[1..] == MapModules(ms[1..], f);
    }
  }

  /** Completing a lesson marks every lesson with its id and changes nothing
      else in the reading order; progress is recomputed over the result. */
  lemma CompleteInCourseEffect(c: Course, lessonId: string)
    ensures var all, all' := Flatten(c.modules), Flatten(CompleteInCourse(c, lessonId).modules);
      |all'| == |all|
      && (forall i :: 0 <= i < |all| ==>
            all'[i] == if all[i].id == lessonId then all[i].(isCompleted := true) else all[i])
      && CompleteInCourse(c, lessonId).progress == RoundedShare(CountCompleted(all'), |all|)
    ensures CompleteInCourse(c, lessonId).id == c.id
  {
    FlattenMapModules(c.modules, Completer(lessonId));
  }

  /** For a course of fewer than 200 lessons, `progress === 100` after a
      completion holds exactly when every lesson is completed (this one
      included). A course without lessons gets a non-number and stays open. */
  lemma {:induction false} CompletedIffAllDone(c: Course, lessonId: string)
    requires |Flatten(c.modules)| < 200
    ensures var all := Flatten(c.modules);
      CompleteInCourse(c, lessonId).isCompleted <==>
        |all| > 0 && forall i :: 0 <= i < |all| ==> all[i].isCompleted || all[i].id == lessonId
  {
    var all, all' := Flatten(c.modules), Flatten(CompleteInCourse(c, lessonId).modules);
    CompleteInCourseEffect(c, lessonId);
    CountCompletedAll(all');
    if |all| > 0 {
      HundredMeansAllDone(CountCompleted(all'), |all|);
    }
  }

  /** Completing the same lesson again changes nothing. */
  lemma CompleteInCourseIdempotent(c: Course, lessonId: string)
    ensures CompleteInCourse(CompleteInCourse(c, lessonId), lessonId) == CompleteInCourse(c, lessonId)
  {
    MapModulesTwice(c.modules, Completer(lessonId));
  }

  /** The lessons in reading order after unlocking by id: the ones carrying
      the id are unlocked, the others kept. */
  lemma UnlockedInOrder(ms: seq<Module>, id: string)
    ensures var all, all' := Flatten(ms), Flatten(MapModules(ms, Unlocker(id)));
      |all'| == |all|
      && forall j :: 0 <= j < |all| ==>
           all'[j] == if all[j].id == id then all[j].(isLocked := false) else all[j]
  {
    FlattenMapModules(ms, Unlocker(id));
  }

  /** Unlocking the successor: nothing changes when the lesson is missing or
      last; otherwise exactly the lessons carrying the successor's id are
      unlocked. */
  lemma UnlockInCourseEffect(c: Course, lessonId: string)
    ensures var all := Flatten(c.modules); var idx := IndexOf(all, lessonId);
      (idx == -1 || idx == |all| - 1 ==> UnlockInCourse(c, lessonId) == c)
    ensures var all, all' := Flatten(c.modules), Flatten(UnlockInCourse(c, lessonId).modules);
      var idx := IndexOf(all, lessonId);
      0 <= idx < |all| - 1 ==>
        |all'| == |all|
        && forall j :: 0 <= j < |all| ==>
             all'[j] == if all[j].id == all[idx + 1].id then all[j].(isLocked := false) else all[j]
  {
    var all := Flatten(c.modules);
    var idx := IndexOf(all, lessonId);
    if 0 <= idx < |all| - 1 {
      UnlockedInOrder(c.modules, all[idx + 1].id);
    }
  }

  /** With distinct ids, updating the lessons that carry the id found at
      position `k` updates position `k` alone. */
  lemma OnlyPositionUnlocked(all: seq<Lesson>, all': seq<Lesson>, k: nat)
    requires DistinctIds(all) && k < |all| && |all'| == |all|
    requires forall j :: 0 <= j < |all| ==>
      all'[j] == if all[j].id == all[k].id then all[j].(isLocked := false) else all[j]
    ensures forall j :: 0 <= j < |all| ==>
      all'[j] == if j == k then all[j].(isLocked := false) else all[j]
  {
    forall j | 0 <= j < |all|
      ensures all'[j] == if j == k then all[j].(isLocked := false) else all[j]
    {
      if j != k {
        assert all[j].id != all[k].id;
      }
    }
  }

  /** With distinct lesson ids, completing a lesson that has a successor
      unlocks that successor and changes no other lesson. */
  lemma UnlockInCourseExact(c: Course, lessonId: string)
    requires DistinctIds(Flatten(c.modules))
    ensures var all, all' := Flatten(c.modules), Flatten(UnlockInCourse(c, lessonId).modules);
      var idx := IndexOf(all, lessonId);
      0 <= idx < |all| - 1 ==>
        |all'| == |all|
        && forall j :: 0 <= j < |all| ==>
             all'[j] == if j == idx + 1 then all[j].(isLocked := false) else all[j]
  {
    var all := Flatten(c.modules);
    var idx := IndexOf(all, lessonId);
    if 0 <= idx < |all| - 1 {
      var next := all[idx + 1].id;
      var ms' := MapModules(c.modules, Unlocker(next));
      assert UnlockInCourse(c, lessonId).modules == ms';
      UnlockedInOrder(c.modules, next);
      OnlyPositionUnlocked(all, Flatten(ms'), idx + 1);
    }
  }

  /** Unlocking twice is unlocking once: the reading order and the ids do not
      change, so the second call finds the same successor, already unlocked. */
  lemma {:induction false} UnlockInCourseIdempotent(c: Course, lessonId: string)
    ensures UnlockInCourse(UnlockInCourse(c, lessonId), lessonId) == UnlockInCourse(c, lessonId)
  {
    var all := Flatten(c.modules);
    var idx := IndexOf(all, lessonId);
    if 0 <= idx < |all| - 1 {
      var next := all[idx + 1].id;
      var ms := MapModules(c.modules, Unlocker(next));
      var c' := c.(modules := ms);
      assert UnlockInCourse(c, lessonId) == c';
      UnlockedInOrder(c.modules, next);
      var all' := Flatten(ms);
      IndexOfSameIds(all, all', lessonId);
      assert all'[idx + 1].id == next;
      UnlockerIdempotent(next);
      MapModulesTwice(c.modules, Unlocker(next));
      assert UnlockInCourse(c', lessonId) == c'.(modules := MapModules(ms, Unlocker(next)));
    }
  }

  lemma UnlockerIdempotent(id: string)
    ensures forall l :: Unlocker(id)(Unlocker(id)(l)) == Unlocker(id)(l)
  {
  }

  /** Applying a course update that keeps ids to the matching courses, twice,
      is applying it once when the update itself is idempotent. */
  lemma UpdateCoursesTwice(cs: seq<Course>, id: string, f: Course -> Course)
    requires forall c :: f(c).id == c.id && f(f(c)) == f(c)
    ensures UpdateCourses(UpdateCourses(cs, id, f), id, f) == UpdateCourses(cs, id, f)
  {
  }

  /** The unlock `completeLesson` performs and the one the lesson page
      repeats afterwards leave the same course list as one unlock. */
  lemma UnlockNextInIdempotent(cs: seq<Course>, courseId: string, lessonId: string)
    ensures UnlockNextIn(UnlockNextIn(cs, courseId, lessonId), courseId, lessonId)
      == UnlockNextIn(cs, courseId, lessonId)
  {
    var f := Unlocking(lessonId);
    forall c
      ensures f(c).id == c.id && f(f(c)) == f(c)
    {
      UnlockInCourseIdempotent(c, lessonId);
    }
    UpdateCoursesTwice(cs, courseId, f);
  }

  // ---------------------------------------------------------------------
  // Submissions, review requests and certificates as pure updates

  /** `getSubmissionsForLesson`'s test. */
  predicate ForLesson(s: Submission, courseId: string, lessonId: string) {
    s.Submission? && s.courseId == courseId && s.lessonId == lessonId
  }

  /** `getPeerReviewSubmissions`'s test: someone else's submission still waiting for review. */
  predicate OpenForPeerReview(s: Submission, courseId: string, lessonId: string) {
    ForLesson(s, courseId, lessonId) && s.authorId != CurrentUserId && s.needsPeerReview
  }

  /** The entry `submitPeerReview` writes: the review appended to whatever the
      id held, or a bare review list when it held nothing. */
  function WithPeerReview(existing: Option<Submission>, review: PeerReview): Submission {
    if existing.Some? then existing.value.(peerReviews := existing.value.peerReviews + [review])
    else ReviewsOnly([review])
  }

  /** `requests.map(r => r.id === requestId ? {...r, reviews: [...r.reviews, review]} : r)`. */
  function AddReviewTo(rs: seq<ReviewRequest>, requestId: string, review: RequestReview): (r: seq<ReviewRequest>)
    ensures |r| == |rs|
    ensures forall i :: 0 <= i < |rs| ==>
      r[i] == if rs[i].id == requestId then rs[i].(reviews := rs[i].reviews + [review]) else rs[i]
  {
    if rs == [] then []
    else
      var head := if rs[0].id == requestId then rs[0].(reviews := rs[0].reviews + [review]) else rs[0];
      [head] + AddReviewTo(rs[1..], requestId, review)
  }

  /** The review `submitReviewFeedback` stores: the default id and author come
      first and the caller's object is spread over them, so its own `id`,
      `userId` and `userName` win; the provider's time stamp is written last
      and always wins. */
  function NewReview(reviewId: string, body: Feedback, now: string): (r: RequestReview)
    ensures body.id.Some? ==> r.id == body.id.value
    ensures body.id.None? ==> r.id == reviewId
    ensures body.userId.Some? ==> r.userId == body.userId.value
    ensures body.userId.None? ==> r.userId == "current-user"
    ensures body.userName.Some? ==> r.userName == body.userName.value
    ensures body.userName.None? ==> r.userName == "Current User"
    ensures r.feedback == body.feedback && r.rating == body.rating
    ensures r.submittedAt == now
  {
    RequestReview(
      body.id.GetOr(reviewId),
      body.userId.GetOr("current-user"),
      body.userName.GetOr("Current User"),
      body.feedback,
      body.rating,
      now)
  }

  /** The object the review-requests modal passes on: the prompted text, the
      prompted rating through `parseInt`, the author "You" and its own stamp. */
  function ModalFeedback(text: string, rating: string, stamp: string): Feedback {
    Feedback(None, Some("current-user"), Some("You"), text, Text.ParseInt(rating), Some(stamp))
  }

  /** A review sent from the modal is stored under the modal's author name
      "You", keeps the provider's id, and carries the provider's time stamp
      rather than the modal's. */
  lemma ModalReviewIsByYou(reviewId: string, now: string, stamp: string)
    ensures NewReview(reviewId, ModalFeedback("Nice", "5", stamp), now)
      == RequestReview(reviewId, "current-user", "You", "Nice", Some(5), now)
  {
    assert Text.ParseInt("5") == Some(5) by {
      Text.ParseIntOfNumeral("5", "");
    }
  }

  function ReviewAdder(requestId: string, review: RequestReview): seq<ReviewRequest> -> seq<ReviewRequest> {
    rs => AddReviewTo(rs, requestId, review)
  }

  /** `availableCertificates.map(c => c.id === id ? {...c, claimed: true, tokenId} : c)`. */
  function MarkClaimed(cs: seq<Certificate>, id: string, tokenId: string): (r: seq<Certificate>)
    ensures |r| == |cs|
    ensures forall i :: 0 <= i < |cs| ==>
      r[i] == if cs[i].id == id then cs[i].(claimed := true, tokenId := Some(tokenId)) else cs[i]
  {
    if cs == [] then []
    else
      var head := if cs[0].id == id then cs[0].(claimed := true, tokenId := Some(tokenId)) else cs[0];
      [head] + MarkClaimed(cs[1..], id, tokenId)
  }

  predicate Claimable(c: Certificate) {
    c.isClaimable && !c.claimed
  }

  /** `certificates.findIndex(c => c.id === id)`. */
  function CertificateIndex(cs: seq<Certificate>, id: string): (r: int)
    ensures -1 <= r < |cs|
    ensures r == -1 <==> forall i :: 0 <= i < |cs| ==> cs[i].id != id
    ensures r >= 0 ==> cs[r].id == id && forall j :: 0 <= j < r ==> cs[j].id != id
  {
    FirstIndex(cs, (c: Certificate) => c.id == id)
  }

  /** `availableCertificates.find(c => c.id === id)`: the first offer with the id. */
  function FindCertificate(cs: seq<Certificate>, id: string): (r: Option<Certificate>)
    ensures r == if CertificateIndex(cs, id) == -1 then None else Some(cs[CertificateIndex(cs, id)])
  {
    Find(cs, (c: Certificate) => c.id == id)
  }

  /** Every claimed certificate carries a token and appears once, and no
      certificate still on offer has been claimed already. */
  ghost predicate CertificatesConsistent(certificates: seq<Certificate>, offered: seq<Certificate>) {
    (forall i :: 0 <= i < |certificates| ==> certificates[i].claimed && certificates[i].tokenId.Some?)
    && (forall i, j :: 0 <= i < j < |certificates| ==> certificates[i].id != certificates[j].id)
    && (forall i, j :: 0 <= i < |offered| && 0 <= j < |certificates| ==>
          offered[i].claimed || offered[i].id != certificates[j].id)
  }

  /** The certificate a claim records: the offer, claimed, with its token and time. */
  function Claimed(c: Certificate, tokenId: string, now: string): Certificate {
    c.(claimed := true, tokenId := Some(tokenId), claimedAt := Some(now))
  }

  /** Claiming a claimable certificate on offer keeps the certificates consistent. */
  lemma ClaimKeepsConsistent(certificates: seq<Certificate>, offered: seq<Certificate>,
                             id: string, tokenId: string, now: string)
    requires CertificatesConsistent(certificates, offered)
    requires FindCertificate(offered, id).Some? && Claimable(FindCertificate(offered, id).value)
    ensures CertificatesConsistent(certificates + [Claimed(FindCertificate(offered, id).value, tokenId, now)],
                                   MarkClaimed(offered, id, tokenId))
  {
    var c := FindCertificate(offered, id).value;
    var k := CertificateIndex(offered, id);
    var certs := certificates + [Claimed(c, tokenId, now)];
    var marked := MarkClaimed(offered, id, tokenId);
    forall i, j | 0 <= i < j < |certs|
      ensures certs[i].id != certs[j].id
    {
      if j == |certificates| {
        assert certs[i] == certificates[i];
      }
    }
    forall i, j | 0 <= i < |marked| && 0 <= j < |certs|
      ensures marked[i].claimed || marked[i].id != certs[j].id
    {
      if j < |certificates| {
        assert certs[j] == certificates[j];
      }
    }
  }

  /** Every field of the provider, for stating what a method leaves alone. */
  datatype ProviderState = ProviderState(
    courses: seq<Course>,
    userStats: Stats,
    notifications: seq<Notification>,
    submissions: Dict<Submission>,
    reviewRequests: Dict<seq<ReviewRequest>>,
    certificates: seq<Certificate>,
    availableCertificates: seq<Certificate>)

  /** The level always follows the experience total; dictionaries hold each
      key once; the certificates are consistent with the offer. */
  ghost predicate ValidState(st: ProviderState) {
    LevelMatchesExp(st.userStats)
    && KeysUnique(st.submissions) && KeysUnique(st.reviewRequests)
    && CertificatesConsistent(st.certificates, st.availableCertificates)
  }

  /** The state after `completeLesson`: the lesson completed and its
      successor unlocked; experience for the lesson's kind; and the course
      bonus of 100 experience and 25 coins. The lesson looked up for the
      award and the course tested for the bonus are both read from the
      course list as it was before the call, so the bonus goes by whether
      the course was already complete, not by this completion. */
  function AfterCompletion(st: ProviderState, courseId: string, lessonId: string): ProviderState {
    var bonus := CourseDone(st.courses, courseId);
    var s := WithExp(st.userStats, ExpForLesson(LessonById(st.courses, courseId, lessonId)));
    st.(courses := UnlockNextIn(CompleteLessonIn(st.courses, courseId, lessonId), courseId, lessonId),
        userStats := if bonus then WithCoins(WithExp(s, 100), 25) else s,
        notifications := st.notifications + if bonus then [CoinsEarned(25, "completing course")] else [])
  }

  /** The state after `submitPeerReview`: the review recorded against the
      submission, 10 experience and 5 coins, and a notification of the coins. */
  function AfterPeerReview(st: ProviderState, submissionId: string, review: PeerReview): ProviderState {
    st.(submissions := Put(st.submissions, submissionId, WithPeerReview(Get(st.submissions, submissionId), review)),
        userStats := WithCoins(WithExp(st.userStats, 10), 5),
        notifications := st.notifications + [CoinsEarned(5, "peer review")])
  }

  class CourseProvider {
    var courses: seq<Course>
    var userStats: Stats
    var notifications: seq<Notification>
    var submissions: Dict<Submission>
    var reviewRequests: Dict<seq<ReviewRequest>>
    var certificates: seq<Certificate>
    var availableCertificates: seq<Certificate>

    function State(): ProviderState
      reads this
    {
      ProviderState(courses, userStats, notifications, submissions, reviewRequests,
                    certificates, availableCertificates)
    }

    ghost predicate Valid()
      reads this
    {
      ValidState(State())
    }

    /** The provider as it starts: no courses until they are loaded, the
        starting stats, the sample submissions and requests, and the
        certificates on offer, none of them claimed. */
    constructor(seedSubmissions: Dict<Submission>, seedRequests: Dict<seq<ReviewRequest>>, offered: seq<Certificate>)
      requires KeysUnique(seedSubmissions) && KeysUnique(seedRequests)
      ensures Valid()
      ensures State() == ProviderState([], InitialStats, [], seedSubmissions, seedRequests, [], offered)
    {
      courses := [];
      userStats := InitialStats;
      notifications := [];
      submissions := seedSubmissions;
      reviewRequests := seedRequests;
      certificates := [];
      availableCertificates := offered;
    }

    /** The course list arriving from the bundled catalogue. */
    method LoadCourses(data: seq<Course>)
      modifies this
      requires Valid()
      ensures Valid()
      ensures State() == old(State()).(courses := data)
    {
      courses := data;
    }

    function GetCourseById(courseId: string): Option<Course>
      reads this
    {
      FindCourse(courses, courseId)
    }

    /** `getLessonById`: module by module, the first lesson with the id. */
    method GetLessonById(courseId: string, lessonId: string) returns (r: Option<Lesson>)
      ensures r == LessonById(courses, courseId, lessonId)
    {
      var course := FindCourse(courses, courseId);
      if course.None? {
        return None;
      }
      var ms := course.value.modules;
      var i := 0;
      while i < |ms|
        invariant 0 <= i <= |ms|
        invariant LessonById(courses, courseId, lessonId) == FindLesson(Flatten(ms[i..]), lessonId)
      {
        assert ms[i..] == [ms[i]] + ms[i + 1..];
        FlattenAppend([ms[i]], ms[i + 1..]);
        FindLessonAppend(LessonsOf(ms[i]), Flatten(ms[i + 1..]), lessonId);
        if ms[i].lessons.Some? {
          var found := FindLesson(ms[i].lessons.value, lessonId);
          if found.Some? {
            return found;
          }
        }
        i := i + 1;
      }
      return None;
    }

    method AddExp(amount: int)
      modifies this
      requires Valid()
      ensures Valid()
      ensures State() == old(State()).(userStats := WithExp(old(userStats), amount))
    {
      userStats := WithExp(userStats, amount);
    }

    /** Coins are added, and a positive award is announced. */
    method AddCoins(amount: int, source: string)
      modifies this
      requires Valid()
      ensures Valid()
      ensures State() == old(State()).(
        userStats := WithCoins(old(userStats), amount),
        notifications := old(notifications) + if amount > 0 then [CoinsEarned(amount, source)] else [])
    {
      userStats := WithCoins(userStats, amount);
      if amount > 0 {
        notifications := notifications + [CoinsEarned(amount, source)];
      }
    }

    /** Spending succeeds exactly when the balance covers the amount, and
        only then are coins taken, so a covered spend never overdraws. */
    method SpendCoins(amount: int) returns (ok: bool)
      modifies this
      requires Valid()
      ensures Valid()
      ensures ok <==> old(userStats.coins) >= amount
      ensures ok ==> userStats.coins >= 0 || old(userStats.coins) < 0
      ensures State() == if ok then old(State()).(userStats := WithCoins(old(userStats), -amount)) else old(State())
    {
      if userStats.coins < amount {
        return false;
      }
      userStats := WithCoins(userStats, -amount);
      return true;
    }

    method EnrollInCourse(courseId: string)
      modifies this
      requires Valid()
      ensures Valid()
      ensures State() == old(State()).(courses := UpdateCourses(old(courses), courseId, EnrollCourse))
    {
      courses := UpdateCourses(courses, courseId, EnrollCourse);
    }

    method UnlockNextLesson(courseId: string, lessonId: string)
      modifies this
      requires Valid()
      ensures Valid()
      ensures State() == old(State()).(courses := UnlockNextIn(old(courses), courseId, lessonId))
    {
      courses := UnlockNextIn(courses, courseId, lessonId);
    }

    /** `completeLesson`: the new state is `AfterCompletion` of the old one.
        The steps run on local values in the source's order (mark the lesson,
        award its experience, pay the bonus read from the course list as it
        stood before, unlock the next lesson) and are stored together. */
    method CompleteLesson(courseId: string, lessonId: string)
      modifies this
      requires Valid()
      ensures Valid()
      ensures State() == AfterCompletion(old(State()), courseId, lessonId)
    {
      var lesson := LessonById(courses, courseId, lessonId);
      var updatedCourse := FindCourse(courses, courseId);
      var cs := CompleteLessonIn(courses, courseId, lessonId);
      var stats := WithExp(userStats, ExpForLesson(lesson));
      var notes := notifications;
      if updatedCourse.Some? && updatedCourse.value.isCompleted {
        stats := WithCoins(WithExp(stats, 100), 25);
        notes := notes + [CoinsEarned(25, "completing course")];
      }
      cs := UnlockNextIn(cs, courseId, lessonId);
      Commit(State().(courses := cs, userStats := stats, notifications := notes));
    }

    /** Stores every field at once. */
    method Commit(st: ProviderState)
      modifies this
      requires ValidState(st)
      ensures Valid() && State() == st
    {
      courses, userStats, notifications := st.courses, st.userStats, st.notifications;
      submissions, reviewRequests := st.submissions, st.reviewRequests;
      certificates, availableCertificates := st.certificates, st.availableCertificates;
    }

    /** Stores a new submission under an id made of the course, the lesson
        and the time, replacing any entry that id already named. */
    method SubmitAssignment(courseId: string, lessonId: string, payload: AssignmentPayload, now: string)
      returns (submissionId: string)
      modifies this
      requires Valid()
      ensures Valid()
      ensures submissionId == courseId + "-" + lessonId + "-" + now
      ensures State() == old(State()).(submissions := Put(old(submissions), submissionId,
        Submission(submissionId, courseId, lessonId, payload, now, "submitted", [], true, CurrentUserId)))
    {
      submissionId := courseId + "-" + lessonId + "-" + now;
      PutKeepsKeysUnique(submissions, submissionId,
        Submission(submissionId, courseId, lessonId, payload, now, "submitted", [], true, CurrentUserId));
      submissions := Put(submissions, submissionId,
        Submission(submissionId, courseId, lessonId, payload, now, "submitted", [], true, CurrentUserId));
    }

    function GetSubmissionsForLesson(courseId: string, lessonId: string): seq<Submission>
      reads this
    {
      Filter(Values(submissions), (s: Submission) => ForLesson(s, courseId, lessonId))
    }

    function GetPeerReviewSubmissions(courseId: string, lessonId: string): seq<Submission>
      reads this
    {
      Filter(Values(submissions), (s: Submission) => OpenForPeerReview(s, courseId, lessonId))
    }

    /** Appends a review by the current user to the submission's reviews and
        awards 10 experience and 5 coins. */
    method SubmitPeerReview(submissionId: string, rating: int, feedback: string, now: string)
      returns (reviewId: string)
      modifies this
      requires Valid()
      ensures Valid()
      ensures reviewId == "review-" + now
      ensures State() == AfterPeerReview(old(State()), submissionId,
        PeerReview(reviewId, CurrentUserId, rating, feedback, now))
    {
      reviewId := "review-" + now;
      var review := PeerReview(reviewId, CurrentUserId, rating, feedback, now);
      var entry := WithPeerReview(Get(submissions, submissionId), review);
      PutKeepsKeysUnique(submissions, submissionId, entry);
      Commit(State().(
        submissions := Put(submissions, submissionId, entry),
        userStats := WithCoins(WithExp(userStats, 10), 5),
        notifications := notifications + [CoinsEarned(5, "peer review")]));
    }

    /** Appends a new open request, with no reviews yet, to the lesson's list. */
    method SubmitReviewRequest(courseId: string, lessonId: string, request: RequestPayload, now: string)
      returns (requestId: string)
      modifies this
      requires Valid()
      ensures Valid()
      ensures requestId == "req-" + now
      ensures State() == old(State()).(reviewRequests := Put(old(reviewRequests), lessonId,
        Get(old(reviewRequests), lessonId).GetOr([])
          + [ReviewRequest(requestId, "current-user", "Current User", request, now, "open", [])]))
    {
      requestId := "req-" + now;
      var entry := Get(reviewRequests, lessonId).GetOr([])
        + [ReviewRequest(requestId, "current-user", "Current User", request, now, "open", [])];
      PutKeepsKeysUnique(reviewRequests, lessonId, entry);
      reviewRequests := Put(reviewRequests, lessonId, entry);
    }

    /** Adds the review to every request with the id, under every lesson,
        and awards 15 experience and 8 coins. */
    method SubmitReviewFeedback(requestId: string, body: Feedback, now: string) returns (reviewId: string)
      modifies this
      requires Valid()
      ensures Valid()
      ensures reviewId == "rev-" + now
      ensures var review := NewReview(reviewId, body, now);
        State() == old(State()).(
          reviewRequests := MapValues(old(reviewRequests), ReviewAdder(requestId, review)),
          userStats := WithCoins(WithExp(old(userStats), 15), 8),
          notifications := old(notifications) + [CoinsEarned(8, "helping peers")])
    {
      reviewId := "rev-" + now;
      var review := NewReview(reviewId, body, now);
      MapValuesKeepsKeys(reviewRequests, ReviewAdder(requestId, review));
      Commit(State().(
        reviewRequests := MapValues(reviewRequests, ReviewAdder(requestId, review)),
        userStats := WithCoins(WithExp(userStats, 15), 8),
        notifications := notifications + [CoinsEarned(8, "helping peers")]));
    }

    /** Claims a certificate on offer: refused (None) when it is unknown, not
        claimable or already claimed; otherwise it is recorded with a fresh
        token, marked claimed on offer, and 100 experience and 50 coins are
        awarded. */
    method ClaimCertificate(certificateId: string, now: string) returns (tokenId: Option<string>)
      modifies this
      requires Valid()
      ensures Valid()
      ensures var found := FindCertificate(old(availableCertificates), certificateId);
        tokenId.None? <==> found.None? || !Claimable(found.value)
      ensures tokenId.None? ==> State() == old(State())
      ensures tokenId.Some? ==>
        var found := FindCertificate(old(availableCertificates), certificateId).value;
        tokenId.value == "nft-" + now
        && State() == old(State()).(
          certificates := old(certificates)
            + [Claimed(found, tokenId.value, now)],
          availableCertificates := MarkClaimed(old(availableCertificates), certificateId, tokenId.value),
          userStats := WithCoins(WithExp(old(userStats), 100), 50),
          notifications := old(notifications) + [CoinsEarned(50, "claiming certificate")])
    {
      var found := FindCertificate(availableCertificates, certificateId);
      if found.None? || !found.value.isClaimable || found.value.claimed {
        return None;
      }
      var token := "nft-" + now;
      ClaimKeepsConsistent(certificates, availableCertificates, certificateId, token, now);
      Commit(State().(
        certificates := certificates + [Claimed(found.value, token, now)],
        availableCertificates := MarkClaimed(availableCertificates, certificateId, token),
        userStats := WithCoins(WithExp(userStats, 100), 50),
        notifications := notifications + [CoinsEarned(50, "claiming certificate")]));
      return Some(token);
    }

    function GetAvailableCertificates(): seq<Certificate>
      reads this
    {
      Filter(availableCertificates, Claimable)
    }
  }

  // ---------------------------------------------------------------------
  // Properties of the provider's updates

  /** Updating matching courses with an id-preserving update finds the same
      course, updated. */
  lemma {:induction false} FindCourseAfterUpdate(cs: seq<Course>, id: string, f: Course -> Course)
    requires forall c :: f(c).id == c.id
    ensures FindCourse(UpdateCourses(cs, id, f), id)
      == if FindCourse(cs, id).Some? then Some(f(FindCourse(cs, id).value)) else None
  {
    var cs' := UpdateCourses(cs, id, f);
    var i, i' := CourseIndex(cs, id), CourseIndex(cs', id);
    assert forall j :: 0 <= j < |cs| ==> cs'[j].id == cs[j].id;
    if i >= 0 {
      assert i' == i;
    } else {
      assert i' == -1;
    }
  }

  /** After `completeLesson`, the course holds as many lessons as before, in
      the same order with the same ids, and every lesson carrying the
      completed id is completed; the next lesson's unlock touches no
      completion flag. */
  lemma {:induction false} CompletionMarksLesson(cs: seq<Course>, courseId: string, lessonId: string)
    ensures var before, after := AllLessons(FindCourse(cs, courseId)),
      AllLessons(FindCourse(UnlockNextIn(CompleteLessonIn(cs, courseId, lessonId), courseId, lessonId), courseId));
      |after| == |before|
      && (forall i :: 0 <= i < |before| ==> after[i].id == before[i].id)
      && (forall i :: 0 <= i < |before| ==>
            after[i].isCompleted == (before[i].isCompleted || before[i].id == lessonId))
  {
    forall c
      ensures Completing(lessonId)(c).id == c.id && Unlocking(lessonId)(c).id == c.id
    {
      CompleteInCourseEffect(c, lessonId);
    }
    var mid := CompleteLessonIn(cs, courseId, lessonId);
    FindCourseAfterUpdate(cs, courseId, Completing(lessonId));
    FindCourseAfterUpdate(mid, courseId, Unlocking(lessonId));
    var found := FindCourse(cs, courseId);
    if found.Some? {
      CompleteThenUnlock(found.value, lessonId);
    }
  }

  lemma CompleteThenUnlock(c: Course, lessonId: string)
    ensures var before, after := Flatten(c.modules), Flatten(UnlockInCourse(CompleteInCourse(c, lessonId), lessonId).modules);
      |after| == |before|
      && (forall i :: 0 <= i < |before| ==> after[i].id == before[i].id)
      && (forall i :: 0 <= i < |before| ==>
            after[i].isCompleted == (before[i].isCompleted || before[i].id == lessonId))
  {
    var c1 := CompleteInCourse(c, lessonId);
    var before, mid := Flatten(c.modules), Flatten(c1.modules);
    var after := Flatten(UnlockInCourse(c1, lessonId).modules);
    CompleteInCourseEffect(c, lessonId);
    UnlockInCourseEffect(c1, lessonId);
    var idx := IndexOf(mid, lessonId);
    if 0 <= idx < |mid| - 1 {
      forall i | 0 <= i < |before|
        ensures after[i].id == before[i].id
        ensures after[i].isCompleted == (before[i].isCompleted || before[i].id == lessonId)
      {
        assert after[i] == if mid[i].id == mid[idx + 1].id then mid[i].(isLocked := false) else mid[i];
      }
    } else {
      assert after == mid;
    }
  }

  /** The completion bonus is paid by what the course list said before the
      call: 100 experience and 25 coins exactly when the course was already
      marked complete, whatever this completion does to it. */
  lemma BonusFollowsPriorState(st: ProviderState, courseId: string, lessonId: string)
    ensures var after := AfterCompletion(st, courseId, lessonId);
      var reward := ExpForLesson(LessonById(st.courses, courseId, lessonId));
      var bonus := CourseDone(st.courses, courseId);
      after.userStats.coins == st.userStats.coins + (if bonus then 25 else 0)
      && after.userStats.exp == st.userStats.exp + reward + (if bonus then 100 else 0)
  {
  }

  /** The call that completes a one-lesson course marks it complete but pays
      no bonus; the bonus only comes with a later completion in that course. */
  lemma CompletingCallPaysNoBonus()
    ensures var lesson := Lesson("l1", "Intro", "lesson", false, false, None, None);
      var course := Course("c1", "Course", "", "Beginner", [], None, None, None, true, Some(0), false,
                           [Module("m1", "Module", Some([lesson]))]);
      var st := ProviderState([course], InitialStats, [], [], [], [], []);
      var after := AfterCompletion(st, "c1", "l1");
      CourseDone(after.courses, "c1") && after.userStats.coins == st.userStats.coins
      && AfterCompletion(after, "c1", "l1").userStats.coins == st.userStats.coins + 25
  {
    var lesson := Lesson("l1", "Intro", "lesson", false, false, None, None);
    var course := Course("c1", "Course", "", "Beginner", [], None, None, None, true, Some(0), false,
                         [Module("m1", "Module", Some([lesson]))]);
    var done := CompleteInCourse(course, "l1");
    assert Flatten(course.modules) == [lesson];
    CompleteInCourseEffect(course, "l1");
    assert Flatten(done.modules) == [lesson.(isCompleted := true)];
    assert done.isCompleted by {
      assert CountCompleted(Flatten(done.modules)) == 1;
    }
    UnlockInCourseEffect(done, "l1");
    assert UnlockInCourse(done, "l1") == done;
    assert UpdateCourses([done], "c1", Unlocking("l1")) == [done];
    assert FindCourse([done], "c1") == Some(done);
  }

  /** A peer-review listing is part of the lesson's listing and never shows
      the current user's own work. */
  lemma {:induction false} PeerReviewListingIsNarrower(subs: seq<Submission>, courseId: string, lessonId: string)
    ensures forall x :: x in Filter(subs, (s: Submission) => OpenForPeerReview(s, courseId, lessonId)) ==>
      x in Filter(subs, (s: Submission) => ForLesson(s, courseId, lessonId)) && x.Submission? && x.authorId != CurrentUserId
  {
    var open := Filter(subs, (s: Submission) => OpenForPeerReview(s, courseId, lessonId));
    FilterMembers(subs, (s: Submission) => OpenForPeerReview(s, courseId, lessonId));
    FilterMembers(subs, (s: Submission) => ForLesson(s, courseId, lessonId));
    forall x | x in open
      ensures x in Filter(subs, (s: Submission) => ForLesson(s, courseId, lessonId)) && x.Submission? && x.authorId != CurrentUserId
    {
      var i :| 0 <= i < |open| && open[i] == x;
      var j :| 0 <= j < |subs| && subs[j] == x;
    }
  }

  /** A review recorded for an id is the last of that id's reviews, after all
      it had before. */
  lemma RecordedReviewIsLast(d: Dict<Submission>, submissionId: string, review: PeerReview)
    ensures var entry := Get(Put(d, submissionId, WithPeerReview(Get(d, submissionId), review)), submissionId);
      entry.Some? && entry.value.peerReviews
        == (if Get(d, submissionId).Some? then Get(d, submissionId).value.peerReviews else []) + [review]
  {
    GetPutSame(d, submissionId, WithPeerReview(Get(d, submissionId), review));
  }

  /** Once claimed, a certificate is no longer on offer: it is neither
      claimable through `find` again nor listed as available. */
  lemma {:induction false} ClaimedCertificateLeavesOffer(cs: seq<Certificate>, id: string, token: string)
    ensures var cs' := MarkClaimed(cs, id, token);
      (FindCertificate(cs', id).Some? ==> !Claimable(FindCertificate(cs', id).value))
      && forall c :: c in Filter(cs', Claimable) ==> c.id != id
  {
    var cs' := MarkClaimed(cs, id, token);
    FilterMembers(cs', Claimable);
    forall c | c in Filter(cs', Claimable)
      ensures c.id != id
    {
      var i :| 0 <= i < |Filter(cs', Claimable)| && Filter(cs', Claimable)[i] == c;
      var j :| 0 <= j < |cs'| && cs'[j] == c;
    }
  }
}
