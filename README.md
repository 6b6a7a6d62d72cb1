# levelup-curriculum: course progression and rewards, modelled in Dafny

levelup-curriculum is a learning-management web application. Learners
browse a course catalogue, enroll, work through lessons that unlock one
after another, submit assignments, review each other's work, and earn
experience, levels, coins, tokens and certificates. This project models
the application's course-progression and rewards logic and proves what
that logic promises.

What is modelled:

- **The course and user state containers.** `CourseContext`,
  `CourseContextNew` and `UserContext` are classes whose fields are the
  provider state: courses, user stats, submissions, review requests,
  certificates, per-lesson progress, and the signed-in user. Each handler
  is a method that updates those fields in program order.
- **Level arithmetic, in two separate versions.** The flat banding
  `floor(points/500)+1` is in `FlatLevel`. The triangular thresholds of
  the progress service are in `ProgressService`. The two are kept apart,
  as in the code.
- **The backend services.** `ProgressService`, `CourseUtils` and
  `CourseService` work on a `Backend.Database` class whose fields are the
  `users`, `progress`, `enrollments`, `token_claims` and `completions`
  tables. Every backend call takes a fault parameter that says whether
  the call fails and with which error. A failed write leaves its table
  unchanged.
- **The pages and forms that repeat progression rules.** These are the
  lesson viewers, peer review, dashboard, course detail, both catalogues,
  the discussion board, the profile's token claim, the login and
  registration forms, the module list, the assignment submission form and
  the review-request form.

Shared modules:

- `Wrappers`: Option and Result.
- `Text`: JavaScript `trim`, `includes` and `parseInt` with no radix, and
  `toLowerCase` on ASCII letters only.
- `Percent`: `Math.round(k/n*100)` as exact half-up rounding.
- `Dict`: a JavaScript object as an insertion-ordered list of entries.
- `Sorting`: `Array.prototype.sort` as a stable sort by key.
- `Catalog`: courses, modules, lessons and their flattening.
- `Seqs`: filter, find and subsequence.
- `Routes`: the navigation targets.

Two behaviours differ from path to path in the code, and the model keeps
each path as written:

- Enrolling twice. `enrollInCourse` in src/services/courseService.js:55-95
  looks for an existing enrollment and returns it on a repeat call.
  `enrollCourse` in src/utils/courseUtils.js:110-130 inserts a row without
  looking. `enrollInCourse` in src/contexts/CourseContext.jsx:267-275 sets
  the course's progress back to 0 on every call.
- Locking. The provider in src/contexts/CourseContext.jsx:361-397 only ever
  unlocks the lesson that follows a completed one, and never locks a lesson
  again; no rule ties a lesson's lock to its predecessor's completion. The
  model proves what that code does (`CourseContext.UnlockInCourseExact` and
  the lemmas beside it).

## Model

| member | source | states |
|---|---|---|
| CourseContext.WithExpKeepsLevel | src/contexts/CourseContext.jsx:578-603 | after `addExp` the level is again `floor(exp/500)+1` of the new total, a non-negative award never lowers it, and coins are untouched |
| CourseContext.ExpForLesson | src/contexts/CourseContext.jsx:329-346 | the award is 15 for a "lesson", 25 for an "assignment", 50 for a "project", and 10 for any other kind or a lesson that was not found |
| CourseContext.CountCompleted | src/contexts/CourseContext.jsx:308-310 | the number of completed lessons is at most the number of lessons |
| CourseContext.CountCompletedAll | src/contexts/CourseContext.jsx:308-316 | every lesson counts as completed exactly when each lesson is completed |
| CourseContext.UpdateCourses | src/contexts/CourseContext.jsx:267-275 | `courses.map` touches exactly the courses with the id, keeping length and order |
| CourseContext.IndexOfSameIds | src/contexts/CourseContext.jsx:366-369 | `findIndex` by id gives the same position on two lists with the same ids |
| CourseContext.MapModulesTwice | src/contexts/CourseContext.jsx:291-301 | mapping an idempotent lesson update over the modules twice equals mapping it once |
| CourseContext.CompleteInCourse | src/contexts/CourseContext.jsx:288-323 | the course update `completeLesson` applies: the lesson marked and the progress recomputed; what it does is stated by `CompleteInCourseEffect`, `CompleteInCourseIdempotent` and `CompletedIffAllDone` |
| CourseContext.CompleteInCourseEffect | src/contexts/CourseContext.jsx:288-323 | `completeLesson` marks exactly the lessons with the id, keeps every other lesson and the reading order, and recomputes progress over the result |
| CourseContext.CompletedIffAllDone | src/contexts/CourseContext.jsx:303-316 | for fewer than 200 lessons the course is completed exactly when it has lessons and all of them are done after this one; a course without lessons stays open |
| CourseContext.CompleteInCourseIdempotent | src/contexts/CourseContext.jsx:285-327 | completing the same lesson twice gives the same course as once |
| CourseContext.UnlockedInOrder | src/contexts/CourseContext.jsx:378-390 | unlocking by id unlocks exactly the lessons with that id and keeps the reading order |
| CourseContext.UnlockInCourse | src/contexts/CourseContext.jsx:361-397 | the course update `unlockNextLesson` applies; what it does is stated by `UnlockInCourseEffect`, `UnlockInCourseExact` and `UnlockInCourseIdempotent` |
| CourseContext.UnlockInCourseEffect | src/contexts/CourseContext.jsx:361-397 | nothing changes when the lesson is missing or last; otherwise exactly the lessons with the successor's id are unlocked |
| CourseContext.OnlyPositionUnlocked | src/contexts/CourseContext.jsx:375-385 | with distinct ids, unlocking by the successor's id changes only the successor's position |
| CourseContext.UnlockInCourseExact | src/contexts/CourseContext.jsx:361-397 | with distinct ids, `unlockNextLesson` clears `isLocked` on exactly the lesson at index i+1 and nothing else |
| CourseContext.UnlockInCourseIdempotent | src/contexts/CourseContext.jsx:361-397 | unlocking twice equals unlocking once |
| CourseContext.UnlockerIdempotent | src/contexts/CourseContext.jsx:380-385 | the per-lesson unlock is idempotent |
| CourseContext.UpdateCoursesTwice | src/contexts/CourseContext.jsx:362-396 | an id-preserving idempotent course update applied twice through `courses.map` equals once |
| CourseContext.UnlockNextInIdempotent | src/contexts/CourseContext.jsx:361-397 | the unlock `completeLesson` does and the one the lesson page repeats leave the same course list as one unlock |
| CourseContext.AddReviewTo | src/contexts/CourseContext.jsx:496-504 | the feedback is appended to exactly the requests with the id; length and order are kept |
| CourseContext.MarkClaimed | src/contexts/CourseContext.jsx:537-541 | exactly the offers with the id become claimed with the token; the rest are kept |
| CourseContext.CertificateIndex | src/contexts/CourseContext.jsx:518-520 | the first position holding the id, or -1 exactly when no offer has it |
| CourseContext.FindCertificate | src/contexts/CourseContext.jsx:518-520 | `find` returns the offer at that first position, or nothing |
| CourseContext.ClaimKeepsConsistent | src/contexts/CourseContext.jsx:517-549 | a claim keeps every recorded certificate claimed with a token, recorded once, and never still claimable on offer |
| CourseContext.CourseProvider.constructor | src/contexts/CourseContext.jsx:5-20 | the provider starts with no courses, exp 1250, level 3, coins 500, no notifications and no certificate claimed |
| CourseContext.CourseProvider.LoadCourses | src/contexts/CourseContext.jsx:236-241 | loading replaces the course list and nothing else |
| CourseContext.CourseProvider.GetLessonById | src/contexts/CourseContext.jsx:250-261 | the loop over the modules returns the first lesson with the id in reading order, or null for an unknown course or lesson |
| CourseContext.CourseProvider.AddExp | src/contexts/CourseContext.jsx:578-603 | exp grows by the amount, the level becomes `floor(exp/500)+1`, and nothing else changes |
| CourseContext.CourseProvider.AddCoins | src/contexts/CourseContext.jsx:605-617 | coins grow by the amount, and a notification is added exactly when the amount is positive |
| CourseContext.CourseProvider.SpendCoins | src/contexts/CourseContext.jsx:619-626 | the spend succeeds exactly when the balance covers it; only then are exactly `amount` coins taken, so a non-negative balance stays non-negative |
| CourseContext.EnrollCourse | src/contexts/CourseContext.jsx:271 | the per-course update of `enrollInCourse`, enrolled at progress 0; its use is stated by `CourseContext.CourseProvider.EnrollInCourse` |
| CourseContext.CourseProvider.EnrollInCourse | src/contexts/CourseContext.jsx:267-275 | the matching course becomes enrolled at progress 0; nothing else changes |
| CourseContext.CourseProvider.UnlockNextLesson | src/contexts/CourseContext.jsx:361-397 | only the course list changes, as `UnlockNextIn` says |
| CourseContext.AfterCompletion | src/contexts/CourseContext.jsx:285-359 | the whole effect of `completeLesson` on the provider state; `CourseContext.CourseProvider.CompleteLesson` is proved to produce it, and `CompletionMarksLesson`, `BonusFollowsPriorState` and `CompletingCallPaysNoBonus` state what it does |
| CourseContext.CourseProvider.CompleteLesson | src/contexts/CourseContext.jsx:285-359 | the new state is `AfterCompletion` of the old: lesson marked, progress recomputed, exp by type, the bonus read from the state before the call, successor unlocked |
| CourseContext.CourseProvider.SubmitAssignment | src/contexts/CourseContext.jsx:399-417 | the id is course-lesson-time, and exactly that key is written with a "submitted" entry that needs peer review, authored by user "1" |
| CourseContext.CourseProvider.SubmitPeerReview | src/contexts/CourseContext.jsx:436-459 | the review is appended under the submission id, 10 exp and 5 coins are awarded with one notification, and the id is "review-" plus the time |
| CourseContext.CourseProvider.SubmitReviewRequest | src/contexts/CourseContext.jsx:465-482 | one "open" request with no reviews is appended to the lesson's list, earlier requests kept in order |
| CourseContext.NewReview | src/contexts/CourseContext.jsx:484-491 | the stored review takes the caller's id, userId and userName when the feedback object has them, otherwise "rev-" plus the time, "current-user" and "Current User"; the text and rating are the caller's and the time stamp is always the provider's |
| CourseContext.ModalReviewIsByYou | src/components/ReviewRequestsModal/ReviewRequestsModal.jsx:20-26 | the modal's feedback "Nice" rated "5" is stored as a review by "You", rating 5, with the provider's id and time stamp |
| CourseContext.CourseProvider.SubmitReviewFeedback | src/contexts/CourseContext.jsx:484-515 | the review built from the caller's object over the defaults is added to every request with the id under every lesson, and 15 exp and 8 coins are awarded |
| CourseContext.CourseProvider.ClaimCertificate | src/contexts/CourseContext.jsx:517-549 | refused, with nothing changed, exactly when the offer is missing, not claimable or already claimed; otherwise recorded with token "nft-" plus the time, marked claimed, 100 exp and 50 coins |
| CourseContext.FindCourseAfterUpdate | src/contexts/CourseContext.jsx:263-265 | after an id-preserving update, `getCourseById` finds the updated course |
| CourseContext.CompletionMarksLesson | src/contexts/CourseContext.jsx:285-359 | after completing and unlocking, the course has the same lessons in the same order, and exactly the lessons with the id have become completed |
| CourseContext.CompleteThenUnlock | src/contexts/CourseContext.jsx:288-397 | the same statement for one course: the unlock changes no completion flag |
| CourseContext.BonusFollowsPriorState | src/contexts/CourseContext.jsx:350-355 | the 100 exp and 25 coins bonus is paid exactly when the course was already complete before the call |
| CourseContext.CompletingCallPaysNoBonus | src/contexts/CourseContext.jsx:350-355 | completing the only lesson of a course marks it complete but pays no bonus; a repeated completion pays it |
| CourseContext.PeerReviewListingIsNarrower | src/contexts/CourseContext.jsx:419-434 | every submission listed for peer review is in the lesson's listing and is not the current user's |
| CourseContext.RecordedReviewIsLast | src/contexts/CourseContext.jsx:447-453 | after `submitPeerReview` the submission's reviews are the earlier ones (or none) followed by the new review |
| CourseContext.ClaimedCertificateLeavesOffer | src/contexts/CourseContext.jsx:537-553 | a claimed id is neither claimable through `find` nor listed by `getAvailableCertificates` |
| CourseContextNew.PreviousLesson | src/contexts/CourseContextNew.jsx:69-76 | a previous lesson exists exactly when the course is known and the lesson's index is above 0 |
| CourseContextNew.NextLesson | src/contexts/CourseContextNew.jsx:79-88 | a next lesson exists exactly when the course is known and the index is below length-1; for an unknown lesson (index -1) it is the first lesson |
| CourseContextNew.CurrentLessonIndex | src/contexts/CourseContextNew.jsx:91-97 | 0 for an unknown course; otherwise -1 exactly when no lesson has the id, else a position holding the id |
| CourseContextNew.PreviousNextInverse | src/contexts/CourseContextNew.jsx:69-88 | with distinct ids, the next of the previous lesson is the current one, and the previous of the next lesson is the current one |
| CourseContextNew.IsLessonCompleted | src/contexts/CourseContextNew.jsx:120-127 | a lesson reads as completed only when its key is stored |
| CourseContextNew.ProgressKeysCanCollide | src/contexts/CourseContextNew.jsx:109-117 | the key `${courseId}-${lessonId}` is shared by course "a-b" with lesson "c" and course "a" with lesson "b-c" |
| CourseContextNew.MarkCompleteEffect | src/contexts/CourseContextNew.jsx:109-127 | after marking, the lesson reads as completed and every lesson with a different key reads as before |
| CourseContextNew.CompletedIffMarked | src/contexts/CourseContextNew.jsx:109-127 | while only marking writes the map, a lesson reads as completed exactly when its key was marked |
| CourseContextNew.LessonsShare | src/contexts/CourseContextNew.jsx:137-142 | the share is not a number exactly when the module has no lessons, and otherwise lies in [0, 100] |
| CourseContextNew.ModuleProgress | src/contexts/CourseContextNew.jsx:130-143 | any progress returned lies in [0, 100]; an unknown course or module gives 0, and a module without a lessons array throws |
| CourseContextNew.IsModuleCompleted | src/contexts/CourseContextNew.jsx:145-148 | it throws exactly when the progress does, and is false for an unknown course |
| CourseContextNew.ShareIsHundred | src/contexts/CourseContextNew.jsx:142-147 | k out of n lessons gives exactly 100 only when k is n |
| CourseContextNew.ShareCompleteIffAllDone | src/contexts/CourseContextNew.jsx:130-148 | a module is completed exactly when it has lessons and every one of them is completed |
| CourseContextNew.WithFeedback | src/contexts/CourseContextNew.jsx:206-213 | the feedback is appended to exactly the requests with the id; length and order are kept |
| CourseContextNew.WithFeedbackAbsent | src/contexts/CourseContextNew.jsx:202-218 | feedback for an id no request holds changes nothing |
| CourseContextNew.CourseProvider.constructor | src/contexts/CourseContextNew.jsx:6-11 | every collection starts empty |
| CourseContextNew.CourseProvider.LoadCourses | src/contexts/CourseContextNew.jsx:14-38 | the loaded list replaces the courses |
| CourseContextNew.CourseProvider.EnrollInCourse | src/contexts/CourseContextNew.jsx:100-106 | exactly the courses with the id become enrolled; nothing else changes |
| CourseContextNew.CourseProvider.MarkLessonComplete | src/contexts/CourseContextNew.jsx:109-117 | exactly the key `${courseId}-${lessonId}` is written with a completed entry, after which the lesson reads as completed |
| CourseContextNew.CourseProvider.SubmitAssignment | src/contexts/CourseContextNew.jsx:150-167 | the id is "sub-" plus the stamp, and exactly that key gets a "submitted" record |
| CourseContextNew.CourseProvider.SubmitReviewRequest | src/contexts/CourseContextNew.jsx:177-194 | the lesson's list becomes the earlier requests followed by one "open" request; every other lesson's list is unchanged |
| CourseContextNew.CourseProvider.SubmitReviewFeedback | src/contexts/CourseContextNew.jsx:202-218 | the loop over the keys rewrites every lesson's list so that only requests with the id gain the feedback, whichever lesson holds them |
| CourseContextNew.PutEntries | src/contexts/CourseContextNew.jsx:111-116 | each entry after a write is the new entry or an entry that was there before |
| UserContext.UpdatedUser | src/contexts/UserContext.jsx:33-35 | with no user yet, the user becomes exactly the update (spreading `null` adds nothing); there is always a user afterwards |
| UserContext.MergeProperties | src/contexts/UserContext.jsx:33-35 | for each of the nine profile fields, the merged profile has the update's value when the update has the field and the previous value otherwise; merging the same update twice is the same as once, and the empty object changes nothing on either side |
| UserContext.Plus | src/contexts/UserContext.jsx:132-138 | a finite field plus the amount is that sum; a missing field or NaN gives NaN |
| UserContext.WithExp | src/contexts/UserContext.jsx:132-134 | no user stays no user; otherwise only the experience changes |
| UserContext.WithCoins | src/contexts/UserContext.jsx:136-138 | no user stays no user; otherwise only the coins change |
| UserContext.AwardsAdd | src/contexts/UserContext.jsx:132-138 | two awards equal one award of the sum, an award taken back restores the profile, and experience and coin awards commute |
| UserContext.WithLevel | src/contexts/UserContext.jsx:140-144 | no user stays no user; otherwise exactly the level and the experience are set |
| UserContext.WithStreak | src/contexts/UserContext.jsx:146-148 | no user stays no user; otherwise exactly the streak is set |
| UserContext.NewProfile | src/contexts/UserContext.jsx:93-103 | a new account starts at level "Beginner" with 0 experience, 0 coins, streak 0 and no avatar, under its own uid, name and e-mail |
| UserContext.NewProfileAward | src/contexts/UserContext.jsx:93-103 | on a new account the first award is the whole experience |
| UserContext.UserProvider.constructor | src/contexts/UserContext.jsx:14-16 | no user, not authenticated, not loading |
| UserContext.UserProvider.UpdateUser | src/contexts/UserContext.jsx:33-35 | the user becomes the merge of the old user and the update |
| UserContext.UserProvider.AddExp | src/contexts/UserContext.jsx:132-134 | the user becomes the old user with the experience raised |
| UserContext.UserProvider.AddCoins | src/contexts/UserContext.jsx:136-138 | the user becomes the old user with the coins raised |
| UserContext.UserProvider.LevelUp | src/contexts/UserContext.jsx:140-144 | the user becomes the old user with the new level and experience |
| UserContext.UserProvider.UpdateStreak | src/contexts/UserContext.jsx:146-148 | the user becomes the old user with the new streak |
| UserContext.UserProvider.Login | src/contexts/UserContext.jsx:61-81 | success exactly when the sign-in succeeds, and then the stored profile (possibly none) is the user and the provider is authenticated; a failure reports the error code and keeps the user; loading ends either way |
| UserContext.UserProvider.Register | src/contexts/UserContext.jsx:83-117 | success exactly when the account is created, and then the uploaded profile is the new account's starting profile; a failure reports the error code and uploads nothing |
| UserContext.UserProvider.Logout | src/contexts/UserContext.jsx:119-130 | a sign-out that succeeds clears the user and the authentication flag; one that fails changes neither; loading is off afterwards |
| FormValidation.EmailError | src/pages/Login/Login.jsx:42-46 | no message exactly when the text matches `\S+@\S+\.\S+` somewhere |
| FormValidation.EmailLikeIsNotBlank | src/pages/Login/Login.jsx:42-46 | text that matches the e-mail pattern is never blank, so "Email is required" and a pass cannot both apply |
| FormValidation.EmailExamples | src/pages/Login/Login.jsx:44 | "ann@mail.com" matches the pattern; "ann@mail" and "@mail.com" do not |
| FormValidation.PasswordError | src/pages/Login/Login.jsx:48-52 | no message exactly when the password is non-blank and at least 6 UTF-16 code units long, as `password.length` counts |
| FormValidation.PasswordMessages | src/pages/Login/Login.jsx:48-52 | "Password is required" exactly for a blank password, and "at least 6 characters" exactly for a non-blank one shorter than 6 UTF-16 code units |
| FormValidation.BlankPasswordIsRequired | src/pages/Login/Login.jsx:48-49 | six spaces are blank, so they get "Password is required" even though they are six characters long |
| FormValidation.AstralPasswordAccepted | src/pages/Login/Login.jsx:50 | three characters outside the Basic Multilingual Plane are six code units, so the password passes |
| FormValidation.EntryForSpec | src/pages/Login/Login.jsx:40-55 | a chain's entry holds the chain's message under its key and nothing else, and is empty exactly when the chain passes |
| FormValidation.GetTwoEntries | src/pages/Login/Login.jsx:40-55 | the e-mail chain's entry followed by the password chain's gives each key its own chain's message |
| FormValidation.TwoEntriesShape | src/pages/Login/Login.jsx:40-55 | two chains record only their own keys, and nothing exactly when both pass |
| FormValidation.CheckEmail | src/pages/Login/Login.jsx:42-46 | the e-mail chain appends exactly the e-mail's entry to the object |
| FormValidation.CheckPassword | src/pages/Login/Login.jsx:48-52 | the password chain, with its length test in UTF-16 code units, appends exactly the password's entry to the object |
| FormValidation.ClearShown | src/pages/Login/Login.jsx:31-36 | a field with a message reads "" afterwards, a field without one stays without one, and every other key and the key set are unchanged |
| FormValidation.GeneralMessage | src/pages/Login/Login.jsx:67-76 | no message exactly when the call answered with success; a throw gives the fixed unexpected-error text, a failure with an error code gives that code, and a non-empty fallback is never replaced by "" |
| Login.WithValue | src/pages/Login/Login.jsx:25-30 | the named field takes the value and the other field is kept |
| Login.FormValidIff | src/pages/Login/Login.jsx:39-56 | the form is accepted exactly when the e-mail matches the pattern and the password is non-blank with at least 6 UTF-16 code units |
| Login.MessagesGet | src/pages/Login/Login.jsx:39-56 | each field's key reads the message of its first failing rule, or nothing |
| Login.KeysDistinct | src/pages/Login/Login.jsx:43-51 | the e-mail and password messages are filed under different keys |
| Login.MessagesShape | src/pages/Login/Login.jsx:39-56 | only the two fields' keys are recorded, and the object is empty exactly when the form is valid |
| Login.Target | src/pages/Login/Login.jsx:23 | the target is the page the visitor came from when it is a non-empty path, "/dashboard" when there is none, and never empty |
| Login.LoginPage.constructor | src/pages/Login/Login.jsx:11-17 | empty fields, no messages, not submitting |
| Login.LoginPage.HandleChange | src/pages/Login/Login.jsx:25-37 | the field takes the value and a message showing under it is blanked |
| Login.LoginPage.ValidateForm | src/pages/Login/Login.jsx:39-56 | the object becomes the two chains' messages, and the form passes exactly when it is empty |
| Login.LoginPage.HandleSubmit | src/pages/Login/Login.jsx:58-79 | sent exactly when the form is valid; success goes to the target page with no message; otherwise only the general message is left and there is no navigation |
| Register.WithValue | src/pages/Register/Register.jsx:26-31 | the named field takes the value and every other field is kept |
| Register.FullNameError | src/pages/Register/Register.jsx:43-47 | no message exactly when the trimmed name has at least 2 UTF-16 code units, as `trim().length` counts |
| Register.UsernameError | src/pages/Register/Register.jsx:49-56 | no message exactly when the trimmed name has at least 3 UTF-16 code units and the text as typed is made only of letters, digits, '_' and '-' |
| Register.PaddedUsernameRejected | src/pages/Register/Register.jsx:51-55 | " ann" passes the trimmed length rule and then fails the pattern |
| Register.AstralNamesCountTwice | src/pages/Register/Register.jsx:43-56 | one character outside the Basic Multilingual Plane is a long enough name; two of them pass the username length rule and fail only its pattern |
| Register.ConfirmError | src/pages/Register/Register.jsx:70-74 | no message exactly when the confirmation is non-blank and equal to the password |
| Register.FormValidIff | src/pages/Register/Register.jsx:40-78 | the form is accepted exactly when all five rules pass, written out field by field, with lengths in UTF-16 code units |
| Register.KeysDistinct | src/pages/Register/Register.jsx:43-74 | different fields are filed under different keys |
| Register.MessagesOfSnoc | src/pages/Register/Register.jsx:40-78 | running one more chain appends that field's entry |
| Register.MessagesOfGet | src/pages/Register/Register.jsx:40-78 | after some chains have run, a field among them reads its first failing rule's message or nothing, and any other field reads nothing |
| Register.MessagesOfKeys | src/pages/Register/Register.jsx:40-78 | after some chains have run, every recorded key belongs to one of their fields |
| Register.MessagesOfEmpty | src/pages/Register/Register.jsx:40-78 | after some chains have run, the object is empty exactly when each of them passed |
| Register.FieldsComplete | src/pages/Register/Register.jsx:40-78 | every field is checked |
| Register.FormValidAll | src/pages/Register/Register.jsx:40-78 | the form is valid exactly when every checked field passes |
| Register.MessagesSpec | src/pages/Register/Register.jsx:40-78 | every field reads the message of its first failing rule, or nothing, and no key but a field's is recorded |
| Register.MessagesEmptyIff | src/pages/Register/Register.jsx:76-77 | the object is empty exactly when the form is valid |
| Register.CheckFullName | src/pages/Register/Register.jsx:43-47 | the name chain, with its length test in UTF-16 code units, appends exactly the name's entry |
| Register.CheckUsername | src/pages/Register/Register.jsx:49-56 | the username chain, with its length test in UTF-16 code units, appends exactly the username's entry |
| Register.CheckConfirm | src/pages/Register/Register.jsx:70-74 | the confirmation chain appends exactly the confirmation's entry |
| Register.RegisterPage.constructor | src/pages/Register/Register.jsx:11-21 | empty fields, no messages, not submitting |
| Register.RegisterPage.HandleChange | src/pages/Register/Register.jsx:26-38 | the field takes the value and a message showing under it is blanked |
| Register.RegisterPage.ValidateForm | src/pages/Register/Register.jsx:40-78 | the object becomes the five chains' messages in field order, and the form passes exactly when it is empty |
| Register.RegisterPage.HandleSubmit | src/pages/Register/Register.jsx:80-106 | sent exactly when the form is valid; success goes to "/dashboard" with no message; otherwise only the general message is left and there is no navigation |
| Backend.Single | src/services/courseService.js:32-40 | `.single()` yields data exactly when the call succeeds and matched one row, and then it is that row; no row or several give error PGRST116; a failing call gives its own error |
| Backend.OrNumber | src/utils/courseUtils.js:233 | JavaScript `or` with a default keeps a number that is present and non-zero, and gives the default for null and for 0 |
| Backend.OrText | src/pages/Login/Login.jsx:71 | JavaScript `or` with a default keeps a string that is present and non-empty, and gives the default for null and for "" |
| Catalog.CourseIndex | src/contexts/CourseContext.jsx:263-265 | -1 exactly when no course has the id; otherwise the first position that holds it |
| Catalog.FindCourse | src/contexts/CourseContext.jsx:263-265 | `find` gives the course at the first position holding the id, or nothing |
| Catalog.IndexOf | src/contexts/CourseContextNew.jsx:74 | -1 exactly when no lesson has the id; otherwise the first position that holds it |
| Catalog.FindLesson | src/contexts/CourseContext.jsx:256 | `find` gives the lesson at the first position holding the id, or nothing |
| Catalog.MapLessons | src/contexts/CourseContext.jsx:296-302 | `map` keeps the length and applies the function at every position |
| Catalog.MapModules | src/contexts/CourseContext.jsx:293-305 | each module keeps its place, id and title, and its lessons become its own lessons mapped through f (a module without lessons stays without) |
| Catalog.FlattenAppend | src/contexts/CourseContext.jsx:244-247 | `flatMap` over joined module lists joins the lesson lists |
| Catalog.IndexOfAppend | src/contexts/CourseContext.jsx:367-369 | `findIndex` over joined lists: the first list's hit, else the second's shifted past the first, else -1 |
| Catalog.FindLessonAppend | src/contexts/CourseContext.jsx:251-261 | searching the modules in turn finds the same lesson as searching the whole list |
| Catalog.FlattenLength | src/contexts/CourseContext.jsx:244-247 | the flattened list is as long as the lesson counts add up to |
| Catalog.FlattenMembership | src/contexts/CourseContext.jsx:244-247 | a lesson is in the flattened list exactly when some module holds it |
| Catalog.FlattenMapModules | src/contexts/CourseContext.jsx:293-310 | mapping module by module and then flattening is flattening and then mapping |
| Catalog.MapLessonsAppend | src/contexts/CourseContext.jsx:296-302 | mapping joined lists joins the mapped lists |
| Catalog.FirstResumableSpec | src/pages/CourseDetail/CourseDetail.jsx:67-72 | the lesson picked is neither completed nor locked and every lesson before it is completed or locked; nothing is picked exactly when every lesson is completed or locked |
| Percent.RoundPercent | src/utils/courseUtils.js:295 | `Math.round(k / n * 100)` for counts; its meaning is stated by `RoundPercentIsNearest`, `NearestIsUnique` and `RoundPercentInRange` |
| Percent.PercentOf | src/utils/courseUtils.js:295 | `Math.round(k / n * 100)` for counts with no bound of k by n: rounded for n > 0, NaN for 0/0, Infinity for k/0; stated by `PercentOfAgrees` and `CourseUtils.CompletionsWithoutLessons` |
| Percent.PercentOfAgrees | src/utils/courseUtils.js:295 | the full reading and the NaN-only reading agree wherever both give a number, and differ only on k/0 with k > 0, which is Infinity |
| Percent.RoundPercentIsNearest | src/utils/courseUtils.js:295 | `Math.round(k / n * 100)` gives r with r - 1/2 <= 100k/n < r + 1/2 |
| Percent.NearestIsUnique | src/utils/courseUtils.js:295 | only one integer lies that close to 100k/n, so the rounding is determined |
| Percent.RoundPercentInRange | src/components/ModuleList/ModuleList.jsx:30-35 | a share of at most the whole rounds into [0, 100], nothing done gives 0 and everything done gives 100 |
| Percent.HundredIff | src/contexts/CourseContext.jsx:311-316 | the share rounds to 100 exactly when 200(n - k) <= n |
| Percent.HundredMeansAllDone | src/contexts/CourseContext.jsx:311-316 | below 200 lessons, 100 % means every lesson is completed |
| Percent.OneShortRoundsToHundred | src/contexts/CourseContext.jsx:311-316 | from 200 lessons up, one lesson short still rounds to 100 % |
| FlatLevel.BandLevel | src/utils/courseUtils.js:233-234 | `Math.floor(points / 500) + 1`; its meaning is stated by `BandLevelSpec`, `BandLevelUnique` and `BandLevelMonotone` |
| FlatLevel.BandLevelSpec | src/utils/courseUtils.js:233-234 | `floor(points / 500) + 1` is the 500-point band that holds the points, counted from 1, and at least 1 for a non-negative total |
| FlatLevel.BandLevelUnique | src/contexts/CourseContext.jsx:581 | no other level has a band that holds the points |
| FlatLevel.BandLevelMonotone | src/utils/courseUtils.js:254 | more points never give a lower level, and fewer than 500 more points raise it by at most one |
| Text.TrimStartSpec | src/pages/Login/Login.jsx:42 | the result is a suffix of the text, its first character is not white space, and everything dropped is white space |
| Text.TrimEndSpec | src/pages/Login/Login.jsx:42 | the result is a prefix of the text, its last character is not white space, and everything dropped is white space |
| Text.TrimIsCore | src/pages/Register/Register.jsx:45 | `trim()` is a slice of the text with white space only outside it, and it neither starts nor ends with white space |
| Text.TrimEmptyIffAllSpace | src/pages/Login/Login.jsx:42 | the trimmed text is empty exactly when every character is white space |
| Text.ToLower | src/pages/CourseCatalog/CourseCatalog.jsx:40 | `toLowerCase()` on ASCII letters: the length is kept, A to Z are lowered and every other character is kept (see "Left out") |
| Text.ReplaceFirst | src/services/courseService.js:231-235 | a text that starts with the pattern has it replaced by the new text; a text without the pattern is unchanged |
| Text.IncludesIffOccurs | src/pages/CourseCatalog/CourseCatalog.jsx:40-43 | `includes` holds exactly when the pattern occurs at some position |
| Text.LastPiece | src/components/SubmissionForm/SubmissionForm.jsx:21 | `split(sep).pop()` is the longest suffix without the separator, preceded by the separator when it is not the whole text |
| Text.TrimmedOrNull | src/components/SubmissionForm/SubmissionForm.jsx:53-55 | the trimmed text or null is null exactly when the text is all white space, and otherwise the non-empty trimmed text |
| Text.TrimmedOrNullIdempotent | src/components/SubmissionForm/SubmissionForm.jsx:53-55 | applying it to its own result gives the same value |
| Text.TrimTwice | src/pages/Register/Register.jsx:45 | trimming twice is trimming once |
| Text.Utf16Length | src/pages/Login/Login.jsx:50 | `s.length` in UTF-16 code units: at least the number of characters and at most twice it |
| Text.Utf16LengthAppend | src/pages/Register/Register.jsx:45 | code-unit lengths add up over concatenation |
| Text.Utf16LengthOfBmp | src/pages/Register/Register.jsx:45 | the code-unit length equals the character count exactly when every character is in the Basic Multilingual Plane |
| Text.DigitPrefix | src/components/SubmissionForm/SubmissionForm.jsx:26 | the longest prefix of digits |
| Text.ParseIntOfNumeral | src/components/SubmissionForm/SubmissionForm.jsx:26 | `parseInt` with no radix of decimal digits followed by a non-digit, not starting with "0x" or "0X", reads the digits' value |
| Text.ParseIntOfHexNumeral | src/components/SubmissionForm/SubmissionForm.jsx:26 | `parseInt` with no radix of "0x" or "0X", hexadecimal digits and a non-hex rest reads the digits in base 16, and is NaN when no digit follows the prefix |
| Text.ParseIntOfWord | src/components/SubmissionForm/SubmissionForm.jsx:26 | `parseInt` of text starting with a letter is NaN |
| Text.UnsignedParse | src/components/SubmissionForm/SubmissionForm.jsx:26 | on unsigned text with no leading space, `parseInt` with no radix reads the hexadecimal digits after a "0x" or "0X" prefix and the decimal digits otherwise, and is NaN exactly when no such digit follows |
| Text.NatTextValue | src/components/SubmissionForm/SubmissionForm.jsx:26 | a number's decimal numeral reads back as that number |
| Text.NatTextParses | src/components/SubmissionForm/SubmissionForm.jsx:26 | `parseInt` of a number's numeral gives the number |
| Sorting.SortByCorrect | src/pages/CourseCatalog/CourseCatalog.jsx:50-63 | `sort` by a key gives a list ordered by the key, a permutation of the input, and keeps the input order among equal keys |
| Dict.GetSpec | src/pages/Login/Login.jsx:31 | reading a key of an object finds nothing exactly when the key is absent, and otherwise finds a stored value |
| Dict.PutEffect | src/pages/Login/Login.jsx:32-35 | `{...prev, [k]: v}` reads v under k and as before under every other key; the key set gains k |
| Dict.PutKeepsKeysUnique | src/pages/Login/Login.jsx:32-35 | writing a key keeps the keys distinct |
| Dict.Toggle | src/pages/CourseDetail/CourseDetail.jsx:60-65 | the flag of the key is flipped and every other flag is kept |
| Dict.ToggleTwice | src/pages/CourseDetail/CourseDetail.jsx:60-65 | toggling the same key twice restores every flag |
| ProgressService.TokensForLevel | src/services/progressService.js:51-53 | levels 1 to 10 pay their configured tokens and every other level pays 10; the payment is always between 10 and 400 |
| ProgressService.TokensForLevelGrows | src/services/progressService.js:7-18 | the table pays more for every higher level |
| ProgressService.PointsForLevelStep | src/services/progressService.js:25-31 | from one level to the next takes 500 points per level already held |
| ProgressService.PointsForLevelIncreases | src/services/progressService.js:25-31 | the thresholds strictly increase from level 1 on |
| ProgressService.PointsForLevel | src/services/progressService.js:25-31 | the closed form 250 L (L - 1) of `calculatePointsForLevel`; the loop is proved to compute it in `CalculatePointsForLevel`, and its growth is stated by `PointsForLevelStep` and `PointsForLevelIncreases` |
| ProgressService.CalculatePointsForLevel | src/services/progressService.js:25-31 | the loop's total is the closed form 250 L (L - 1), and 0 for levels up to 1 |
| ProgressService.CalculateLevel | src/services/progressService.js:38-44 | the result is at least 1, the next threshold is above the total, and above level 1 its own threshold is reached |
| ProgressService.LevelIsLargest | src/services/progressService.js:38-44 | for a non-negative total, the level is the largest one whose threshold the total reaches |
| ProgressService.LevelMonotone | src/services/progressService.js:38-44 | a larger total never has a smaller level, and equal totals have equal levels |
| ProgressService.AddPointsToUser | src/services/progressService.js:61-107 | success exactly when the user exists and both calls succeed; then the row holds the new total (null counting as 0) and its level, the old level reads null or 0 as 1, and a level-up is reported exactly when the level rose; a failure leaves the users table alone |
| ProgressService.ClaimsForEmpty | src/services/progressService.js:120-125 | no claim matches exactly when no row has that user and level |
| ProgressService.ClaimsForAtMostOne | src/services/progressService.js:120-125 | with unique claims, a user and level match at most one row |
| ProgressService.ClaimTokens | src/services/progressService.js:115-161 | refused when a check that succeeds finds one claim; otherwise, when the insert succeeds, exactly one pending claim paying the level's tokens is appended and those tokens are reported; a failure changes no claim |
| ProgressService.ClaimKeepsUnique | src/services/progressService.js:115-161 | an accepted claim keeps the claims unique, and a user who already holds a claim for the level is refused |
| ProgressService.CanClaimTokens | src/services/progressService.js:202-230 | success exactly when the user is found; then the answer is yes exactly when the level (null as 0) reaches the level asked and a check that succeeds finds no claim |
| ProgressService.CanClaimMeansUnclaimed | src/services/progressService.js:215-223 | with unique claims, the check finds one row exactly when the user already holds a claim for the level |
| ProgressService.TokensOfAppend | src/services/progressService.js:180-183 | the tokens of joined lists add up |
| ProgressService.TokensOfInsert | src/services/progressService.js:174-183 | inserting a claim adds its tokens |
| ProgressService.TokensOfSortBy | src/services/progressService.js:174-183 | ordering the claims does not change their total |
| ProgressService.GetUserTokenClaims | src/services/progressService.js:168-194 | success exactly when the query succeeds; then the claims are the user's own, highest level first, and the total is the sum of their tokens |
| ProgressService.GetUserProgressStats | src/services/progressService.js:237-302 | success exactly when the user is found and the three counts succeed; a count failure reports the first non-empty message; on success the counts are the user's rows and the progress is measured from the level's threshold towards the next, null level and total counting as 0 |
| ProgressService.ProgressWithinLevel | src/services/progressService.js:278-295 | when the stored level is the level of the stored total, the progress lies in [0, needed) and the percentage in [0, 100) |
| CourseUtils.EnrollCourse | src/utils/courseUtils.js:110-130 | success exactly when the insert succeeds, and then exactly one "in-progress" enrollment is appended; a failure reports its message and changes nothing |
| CourseUtils.FetchLessonProgress | src/utils/courseUtils.js:138-162 | a row is returned exactly when the call succeeds and one row matches, and it is that user's row for that lesson; not found (PGRST116), several rows and a failing call all give null |
| CourseUtils.ProgressForUnique | src/utils/courseUtils.js:138-162 | with the conflict key kept, at most one row matches, and one does exactly when the user has a row for the lesson |
| CourseUtils.ProgressForAtMostOne | src/utils/courseUtils.js:212 | with the conflict key kept, a user and lesson match at most one row |
| CourseUtils.UpsertProgress | src/utils/courseUtils.js:199-213 | the rows with the row's key are replaced by it, or it is appended when there is none; every other row is kept in place, and the conflict key stays unique |
| CourseUtils.UpsertThenFind | src/utils/courseUtils.js:199-213 | after the upsert the key matches exactly the upserted row |
| CourseUtils.Record | src/utils/courseUtils.js:173-260 | `recordLessonCompletion` on the two tables and the faults met; what it does is stated by `RecordSteps`, `RecordAward`, `RecordSucceedsIff`, `RecordKeepsKey` and `RecordTwiceAwardsOnce` |
| CourseUtils.RecordSteps | src/utils/courseUtils.js:181-218 | a lesson whose row already has a completion time is answered "already completed" with both tables unchanged; otherwise a failing upsert changes nothing and returns before the user is read; any other outcome leaves the row upserted |
| CourseUtils.RecordAward | src/utils/courseUtils.js:220-255 | an award adds the points to the previous total (null or 0 as 0), sets the level to floor(total / 500) + 1, reports a level-up exactly when that band rose, and changes only the user's row |
| CourseUtils.AwardSpec | src/utils/courseUtils.js:220-255 | the points step alone: a success writes the new total and level in one update; a failure leaves the users unchanged |
| CourseUtils.RecordFailureKeepsUsers | src/utils/courseUtils.js:215-248 | a failed recording never changes the users |
| CourseUtils.RecordSucceedsIff | src/utils/courseUtils.js:181-255 | the call succeeds exactly when a completion already stood and the check went through, or every step went through; "already completed" is answered only for a recorded completion |
| CourseUtils.RecordKeepsKey | src/utils/courseUtils.js:181-255 | the conflict key survives a recording, and a successful recording leaves a completion recorded for the lesson |
| CourseUtils.RecordTwiceAwardsOnce | src/utils/courseUtils.js:181-195 | after a successful recording, a second one for the same user and lesson whose check goes through answers "already completed" and leaves both tables as the first left them: no double award |
| CourseUtils.RecordLessonCompletion | src/utils/courseUtils.js:173-260 | the answer and the progress and users tables are those the recording function gives on the old tables |
| CourseUtils.GetCourseProgress | src/utils/courseUtils.js:268-302 | zeros when the course cannot be read or a module lacks its lessons array; a failing count gives 0 completed of all lessons; otherwise the completed rows of the user's course over the total lesson count, rounded half up, NaN for 0/0 and Infinity for completions over no lessons |
| CourseUtils.CourseProgressBounds | src/utils/courseUtils.js:294-295 | with lessons present and no more completions than lessons, the percentage lies in [0, 100], all done gives 100 and none done gives 0 |
| CourseUtils.CompletionsWithoutLessons | src/utils/courseUtils.js:294-295 | completions counted for a course with no lessons give Infinity, and none give NaN |
| CourseUtils.MarkEnrollmentsCompleted | src/utils/courseUtils.js:369-373 | exactly the user's enrollments in the course get status "completed"; the rest are unchanged |
| CourseUtils.MarkCourseCompleted | src/utils/courseUtils.js:350-385 | an insert error other than 23505 fails and changes nothing; otherwise the completion is inserted unless one already exists (23505 counts as done), and the enrollments are marked completed unless that update fails; completions stay unique per user and course |
| CourseService.LessonPath | src/services/courseService.js:228-235 | the result is a suffix of the path: at most one leading prefix is removed |
| CourseService.LessonUrl | src/services/courseService.js:238 | every lesson URL starts with the fixed raw-content base for the courses folder |
| CourseService.LessonPathForms | src/services/courseService.js:228-238 | "/src/courses/" + q and "src/courses/" + q both become exactly q, and a path with neither prefix is kept, so the three spellings give one URL |
| CourseService.FetchLessonMarkdown | src/services/courseService.js:221-250 | success exactly when the response for the lesson URL is ok, and then the content is that response's text; a response that is not ok and a thrown error are failures |
| CourseService.EnrollInCourse | src/services/courseService.js:55-95 | when the check finds the enrollment it is returned and nothing is inserted; otherwise a failing insert changes nothing, and a successful one appends exactly one "in-progress" row; with the check going through, a user never holds two enrollments in a course |
| CourseService.IsEnrolled | src/services/courseService.js:103-122 | success exactly when the call succeeds or fails with PGRST116 (no rows); then enrolled exactly when a row came back |
| CourseService.EnrolledIffRow | src/services/courseService.js:103-122 | with at most one enrollment per user and course, the check finds one exactly when the user is enrolled |
| CourseService.NullIfEmpty | src/services/courseService.js:508-510 | the value or null keeps a non-empty text and gives null for an empty or missing one |
| CourseService.SubmitReviewRequest | src/services/courseService.js:494-527 | success exactly when the insert succeeds, and then exactly one "open" request is appended with the user, course, lesson and time, and url, github_url and question null when empty; a failure changes nothing |
| CourseService.SubmitterName | src/services/courseService.js:546-551 | the name shown is the full name when there is one, "Anonymous" with no joined user, and never empty |
| CourseService.SubmitterNameFallback | src/services/courseService.js:546-551 | the e-mail is shown only when the full name is empty, and "Anonymous" only when both are |
| ModuleList.EveryCompleted | src/components/ModuleList/ModuleList.jsx:25 | `every` holds exactly when each lesson is completed |
| ModuleList.IsModuleCompleted | src/components/ModuleList/ModuleList.jsx:23-27 | completed exactly when the lessons array is present and every lesson in it is completed; an empty array counts as completed |
| ModuleList.ModuleProgress | src/components/ModuleList/ModuleList.jsx:29-35 | 0 without a lessons array, not a number exactly for an empty one, and otherwise at most 100 |
| ModuleList.ProgressOfCompletedModule | src/components/ModuleList/ModuleList.jsx:23-35 | a completed module with lessons shows 100, and below 200 lessons it shows 100 exactly when it is completed |
| ModuleList.TotalDurationAppend | src/components/ModuleList/ModuleList.jsx:44-47 | the durations of joined lesson lists add up |
| ModuleList.CourseDuration | src/components/ModuleList/ModuleList.jsx:44-59 | the durations of all a course's lessons are the modules' durations added up |
| ModuleList.Stats | src/components/ModuleList/ModuleList.jsx:37-50 | all zeros without a lessons array; otherwise the total is the lesson count, the duration the sum with a missing duration as 0, and completed is at most the total, equal to it exactly when the module is completed |
| ModuleList.DurationNonNegative | src/components/ModuleList/ModuleList.jsx:44-47 | lessons without negative durations never add up to a negative time |
| ModuleList.StatusOf | src/components/ModuleList/ModuleList.jsx:119-129 | the icon is "completed" exactly for a completed lesson and "locked" exactly for a locked lesson that is not completed, so a completed lesson is never shown as locked |
| SubmissionForm.Extension | src/components/SubmissionForm/SubmissionForm.jsx:21 | the extension holds no dot and is no longer than the name; a name without a dot gives the whole name lower-cased |
| SubmissionForm.MaxSizeBytes | src/components/SubmissionForm/SubmissionForm.jsx:26 | the limit is a number exactly when `parseInt(maxSize)` is, and then it is that many megabytes in bytes |
| SubmissionForm.SliceEnd | src/components/SubmissionForm/SubmissionForm.jsx:32 | `slice(0, end)` stops at end, capped at the length, and a negative end counts back from the end |
| SubmissionForm.SelectFiles | src/components/SubmissionForm/SubmissionForm.jsx:15-35 | the files kept are the acceptable ones in the order picked, cut at the given limit, 5 when it is 0 or missing, so never more than a non-negative limit |
| SubmissionForm.SelectedFilesAreValid | src/components/SubmissionForm/SubmissionForm.jsx:20-32 | every kept file has an allowed extension and fits the size limit, and the kept files are a subsequence of the picked ones |
| SubmissionForm.SelectFilesIdempotent | src/components/SubmissionForm/SubmissionForm.jsx:20-32 | with no more acceptable files than the limit all are kept, and filtering the kept files again keeps them all |
| SubmissionForm.NegativeLimitDropsLast | src/components/SubmissionForm/SubmissionForm.jsx:32 | with `maxFiles` of -1, two acceptable files keep only the first |
| SubmissionForm.WithoutIndex | src/components/SubmissionForm/SubmissionForm.jsx:37-39 | an index in range removes exactly that file; any other index keeps the list |
| SubmissionForm.WithoutIndexPositions | src/components/SubmissionForm/SubmissionForm.jsx:37-39 | removal shortens the list by one, keeps the files before the index in place and moves the files after it down by one |
| SubmissionForm.Form.constructor | src/components/SubmissionForm/SubmissionForm.jsx:9-13 | no files, empty text fields, not submitting |
| SubmissionForm.Form.HandleFileChange | src/components/SubmissionForm/SubmissionForm.jsx:15-35 | the list becomes the files the three filters keep |
| SubmissionForm.Form.RemoveFile | src/components/SubmissionForm/SubmissionForm.jsx:37-39 | the list loses exactly the file at the index |
| SubmissionForm.Form.HandleSubmit | src/components/SubmissionForm/SubmissionForm.jsx:41-65 | the record carries the listed files and the requirements, with url, GitHub URL and notes trimmed or null when blank; the form is not left submitting |
| ReviewRequestForm.BuildRequest | src/components/ReviewRequestForm/ReviewRequestForm.jsx:43-55 | url, GitHub URL and question are trimmed or null when blank; the record carries the lesson's id and the kind "review_request" |
| ReviewRequestForm.SubmitEnabled | src/components/ReviewRequestForm/ReviewRequestForm.jsx:180 | submit is enabled exactly when not submitting and the question has a character that is not white space |
| ReviewRequestForm.EnabledSubmitHasQuestion | src/components/ReviewRequestForm/ReviewRequestForm.jsx:52 | a request sent through the enabled button always carries a non-empty question with no surrounding white space |
| LessonViewer.NavigateTo | src/pages/LessonViewer/LessonViewer.jsx:110-122 | navigation happens exactly when the target lesson exists and is not locked, and then goes to that lesson's route under the course |
| LessonViewer.StepTargets | src/pages/LessonViewer/LessonViewer.jsx:86-122 | the previous and next buttons go one step back or forward in the course's reading order, only onto an unlocked lesson; an unknown lesson's next is the first lesson |
| LessonViewer.SidebarEntries | src/pages/LessonViewer/LessonViewer.jsx:180-181 | when every module has its lessons array, the sidebar's flattened entries are exactly the course's lessons in order |
| LessonViewer.FindEntryOfLessons | src/pages/LessonViewer/LessonViewer.jsx:180-182 | looking an id up in entries that all hold a lesson never throws and finds the same lesson as the plain lookup |
| LessonViewer.SidebarClickThrows | src/pages/LessonViewer/LessonViewer.jsx:179-186 | a course whose first module has no lessons array makes the click handler throw on a lesson of a later module |
| LessonViewer.SidebarClick | src/pages/LessonViewer/LessonViewer.jsx:179-186 | the intended click opens a route exactly when the clicked lesson exists in the course and is not locked, and the route is that lesson's |
| LessonViewer.SidebarClickAgrees | src/pages/LessonViewer/LessonViewer.jsx:179-186 | when every module has its lessons array, the handler as written never throws and agrees with the intended click |
| LessonViewer.SecondUnlockHarmless | src/pages/LessonViewer/LessonViewer.jsx:57-62 | unlocking the next lesson again after a completion already unlocked it leaves the provider state unchanged |
| LessonViewer.LessonPage.constructor | src/pages/LessonViewer/LessonViewer.jsx:45-51 | the page starts with no module expanded and the submission form closed |
| LessonViewer.LessonPage.HandleMarkComplete | src/pages/LessonViewer/LessonViewer.jsx:57-62 | an already completed lesson leaves the provider unchanged; otherwise the provider ends in the state of completing the lesson and unlocking the next one |
| LessonViewer.LessonPage.HandleSubmitAssignment | src/pages/LessonViewer/LessonViewer.jsx:64-74 | the submission is stored under the id course-lesson-time, the form closes, and the lesson then goes through the mark-complete path |
| LessonViewer.LessonPage.ToggleModule | src/pages/LessonViewer/LessonViewer.jsx:79-84 | only the given module's expanded flag flips; every other module keeps its flag |
| LessonViewerNew.Tag | src/pages/LessonViewer/LessonViewerNew.jsx:109-111 | every lesson is copied in order, each carrying the id of its module |
| LessonViewerNew.UntagTag | src/pages/LessonViewer/LessonViewerNew.jsx:109-111 | removing the module tags gives back the module's lessons unchanged |
| LessonViewerNew.TagModules | src/pages/LessonViewer/LessonViewerNew.jsx:107-112 | the list is missing (the render throws) exactly when some module has no lessons array; otherwise, with the tags removed, it is the course's lessons in order |
| LessonViewerNew.TagsNameTheirModule | src/pages/LessonViewer/LessonViewerNew.jsx:107-112 | every tagged lesson names a module of the course that holds that lesson |
| LessonViewerNew.PreviousOf | src/pages/LessonViewer/LessonViewerNew.jsx:115-117 | a previous lesson exists exactly when the current lesson is found past the first position, and it is the lesson one place before |
| LessonViewerNew.NextOf | src/pages/LessonViewer/LessonViewerNew.jsx:115-121 | a next lesson exists exactly when the current one is not the last (an unknown lesson's next is the first), and it is the lesson one place after |
| LessonViewerNew.NeighboursAgreeWithProvider | src/pages/LessonViewer/LessonViewerNew.jsx:114-121 | the page's previous and next lessons are the newer provider's previous and next lessons, with module tags added |
| LessonViewerNew.PointsOf | src/pages/LessonViewer/LessonViewerNew.jsx:79 | the lesson's points when they are present and non-zero, 10 otherwise |
| LessonViewerNew.MessageFor | src/pages/LessonViewer/LessonViewerNew.jsx:82-91 | the banner shows the awarded points, and a new level exactly when the call reported a level-up, which is then the reported level |
| LessonViewerNew.LessonPageNew.constructor | src/pages/LessonViewer/LessonViewerNew.jsx:36-38 | the page starts not completing, not completed, and without a banner |
| LessonViewerNew.LessonPageNew.HandleMarkComplete | src/pages/LessonViewer/LessonViewerNew.jsx:61-104 | with no user it redirects to login; a lesson already completed here gives an alert; otherwise the completion is recorded with the lesson's module and points, and success flags the lesson and shows the banner while failure alerts the error or the fallback text; the tables change only through the recording |
| PeerReview.SubmitEnabled | src/pages/PeerReview/PeerReview.jsx:273 | the submit button is enabled exactly when the feedback has a non-space character and the current submission was not already reviewed during the visit |
| PeerReview.ReviewPage.constructor | src/pages/PeerReview/PeerReview.jsx:26-33 | with at least one submission to review, the page lists the provider's peer-review submissions, starts on the first with rating 5, empty feedback and nothing reviewed |
| PeerReview.ReviewPage.HandleSubmitReview | src/pages/PeerReview/PeerReview.jsx:73-87 | blank feedback changes nothing; otherwise the review is stored in the provider, the id joins the reviewed set, the form resets, and the cursor advances or the page is left after the last submission |
| PeerReview.ReviewPage.HandleNext | src/pages/PeerReview/PeerReview.jsx:90-96 | the cursor moves one forward and the form resets unless it is on the last submission, where nothing changes |
| PeerReview.ReviewPage.HandlePrevious | src/pages/PeerReview/PeerReview.jsx:98-104 | the cursor moves one back and the form resets unless it is on the first submission, where nothing changes |
| Dashboard.EnrolledCoursesSpec | src/pages/Dashboard/Dashboard.jsx:26 | a course is in the enrolled list exactly when it is in the catalogue and enrolled, and the list keeps catalogue order |
| Dashboard.RecentCourses | src/pages/Dashboard/Dashboard.jsx:27 | the first three courses of the catalogue in order, or all of them when there are fewer |
| Dashboard.DashboardPage.constructor | src/pages/Dashboard/Dashboard.jsx:21-24 | the page reads the given course provider |
| Dashboard.DashboardPage.HandleContinueCourse | src/pages/Dashboard/Dashboard.jsx:34-55 | an unknown course goes nowhere; a known course opens the first lesson, across its modules in order, that is neither completed nor locked, or the course page when there is none |
| Dashboard.DashboardPage.HandleEnrollCourse | src/pages/Dashboard/Dashboard.jsx:29-32 | the course is enrolled in the provider, nothing else in the provider changes, and the course page opens |
| Dashboard.DashboardPage.RecommendedClick | src/pages/Dashboard/Dashboard.jsx:208-214 | an enrolled course continues and leaves the provider unchanged; any other course is enrolled and its course page opens |
| CourseDetail.ViewOf | src/pages/CourseDetail/CourseDetail.jsx:31-50 | the not-found view shows exactly when no bundled course has the id; otherwise the page shows a bundled course with that id |
| CourseDetail.PrimaryAction | src/pages/CourseDetail/CourseDetail.jsx:113 | the primary button continues exactly when the course is enrolled, and enrolls otherwise |
| CourseDetail.ContinueTargetSpec | src/pages/CourseDetail/CourseDetail.jsx:67-81 | continuing throws exactly when the course has no lessons; otherwise it opens the first lesson neither completed nor locked or, when every lesson is completed or locked, the last lesson |
| CourseDetail.FinishedCourseReopensLastLesson | src/pages/CourseDetail/CourseDetail.jsx:74-80 | once every lesson of a course is completed, continuing opens its last lesson |
| CourseDetail.CourseDetailPage.constructor | src/pages/CourseDetail/CourseDetail.jsx:24-28 | the page starts with no module expanded |
| CourseDetail.CourseDetailPage.ToggleModule | src/pages/CourseDetail/CourseDetail.jsx:60-65 | only the given module's expanded flag flips; every other module keeps its flag |
| CourseDetail.CourseDetailPage.HandleEnroll | src/pages/CourseDetail/CourseDetail.jsx:52-54 | the course is enrolled in the provider and nothing else in the provider changes |
| CourseDetail.CourseDetailPage.HandlePrimary | src/pages/CourseDetail/CourseDetail.jsx:113 | a bundled course that is not enrolled is enrolled in the provider; an enrolled one continues and leaves the provider unchanged |
| CourseCatalog.FilteredCourses | src/pages/CourseCatalog/CourseCatalog.jsx:37-64 | `filteredCourses`; what it holds and in which order is stated by `FilteredCoursesSpec`, `FilteredCoursesOrder` and `EmptyStateIffNoMatch` |
| CourseCatalog.FilteredCoursesSpec | src/pages/CourseCatalog/CourseCatalog.jsx:37-64 | the listing holds exactly the courses matching both the case-insensitive search (title, description or a tag) and the level, each as often as in the catalogue; when every compared number is present, equal keys keep catalogue order; an unknown sort keeps the filtered order |
| CourseCatalog.FilteredCoursesOrder | src/pages/CourseCatalog/CourseCatalog.jsx:51-64 | when every number the chosen sort compares is present, the listing is ordered by most students, best rating or latest join date first, or cheapest first |
| CourseCatalog.EmptyStateIffNoMatch | src/pages/CourseCatalog/CourseCatalog.jsx:213 | the empty state shows exactly when no catalogue course matches both the search and the level |
| CourseCatalog.EmptyTermMatches | src/pages/CourseCatalog/CourseCatalog.jsx:39-44 | the empty search term matches every course |
| CourseCatalog.ClearedFiltersShowAll | src/pages/CourseCatalog/CourseCatalog.jsx:24-25 | with the initial empty search and the "all" level, the listing holds every catalogue course |
| CourseCatalog.ContinueResetsProgress | src/pages/CourseCatalog/CourseCatalog.jsx:197-205 | the card's "Continue" button, as written, enrolls again and resets an enrolled course's progress from 60 to 0 |
| CourseCatalog.CourseButton | src/pages/CourseCatalog/CourseCatalog.jsx:197-205 | the card's button as its label promises ("Continue" opens, "Enroll" enrolls and opens); stated by `CourseButtonSpec` |
| CourseCatalog.CourseButtonSpec | src/pages/CourseCatalog/CourseCatalog.jsx:197-205 | the corrected button always opens the course page, leaves an enrolled course untouched, and behaves as written on a course not yet enrolled |
| CourseCatalog.CatalogPage.constructor | src/pages/CourseCatalog/CourseCatalog.jsx:21-23 | the page reads the given course provider |
| CourseCatalog.CatalogPage.HandleEnroll | src/pages/CourseCatalog/CourseCatalog.jsx:66-69 | the course is enrolled in the provider, nothing else in the provider changes, and the course page opens |
| CourseCatalog.CatalogPage.HandleCourseButton | src/pages/CourseCatalog/CourseCatalog.jsx:197-205 | the provider's courses become what the corrected button gives and the route is the course page |
| CourseCatalogNew.FilteredCoursesSpec | src/pages/CourseCatalog/CourseCatalogNew.jsx:46-71 | the listing holds exactly the courses whose title or description contains the search (ignoring case) and that match the level, each as often as in the catalogue; "popular", "rating" and "newest" are descending with a missing value counted as 0, ties keep their order, and an unknown sort keeps the filtered order |
| CourseCatalogNew.SearchIsNarrower | src/pages/CourseCatalog/CourseCatalogNew.jsx:48-50 | every course this search finds the older catalogue finds too, and a course only the older one finds matches through a tag |
| CourseCatalogNew.CatalogPageNew.constructor | src/pages/CourseCatalog/CourseCatalogNew.jsx:31 | the page starts with no course being enrolled |
| CourseCatalogNew.CatalogPageNew.HandleEnroll | src/pages/CourseCatalog/CourseCatalogNew.jsx:73-94 | with no user it goes to login and writes nothing; otherwise an in-progress enrollment row is appended and the course opens, or a failed insert alerts its message (or the default text) and writes nothing; the busy marker is cleared |
| CourseCatalogNew.ButtonFor | src/pages/CourseCatalog/CourseCatalogNew.jsx:230 | a card offers "Continue Learning" exactly when the course id is among the user's enrollments, and "Enroll Now" otherwise |
| DiscussionBoard.FilteredDiscussions | src/pages/Discussion/Discussion.jsx:79-96 | `filteredDiscussions`; what it lists is stated by `FilteredDiscussionsSpec` |
| DiscussionBoard.FilteredDiscussionsSpec | src/pages/Discussion/Discussion.jsx:79-96 | the board lists exactly the threads matching the case-insensitive search (title, author or a tag), the category ("All" passes every thread) and the selected tag (none passes every thread), in board order |
| DiscussionBoard.TallyCounts | src/pages/Discussion/Discussion.jsx:100-103 | the per-category reduce adds each category's number of threads to what the accumulator already held |
| DiscussionBoard.CategoriesSpec | src/pages/Discussion/Discussion.jsx:99-127 | the sidebar has four entries: "All" counting every thread, then Help, Best Practices and Showcase, each counting the threads filed under it; exactly the selected entry is active |
| DiscussionBoard.CountIsListLength | src/pages/Discussion/Discussion.jsx:79-127 | a named category's count equals the length of the list that category shows with no search and no tag |
| DiscussionBoard.EmptyTermMatches | src/pages/Discussion/Discussion.jsx:81-86 | the empty search term matches every thread |
| DiscussionBoard.TagClick | src/pages/Discussion/Discussion.jsx:135-137 | clicking the selected tag clears the tag filter, and clicking any other tag selects that tag |
| DiscussionBoard.TagClickTwice | src/pages/Discussion/Discussion.jsx:135-137 | a second click on the same tag undoes a first click that selected it, and selects the tag after a first click that cleared it |
| DiscussionBoard.RemoveTagSpec | src/pages/Discussion/Discussion.jsx:180-182 | removing a tag drops every occurrence of it and keeps the other tags in order; from distinct tags exactly one is dropped when it is present, and the rest stay distinct |
| DiscussionBoard.DiscussionPage.constructor | src/pages/Discussion/Discussion.jsx:9-20 | the board starts with the seeded threads, an empty search, the "All" category, no tag and an empty, closed new-thread form |
| DiscussionBoard.DiscussionPage.HandleCategoryClick | src/pages/Discussion/Discussion.jsx:130-133 | the category is selected and the tag filter cleared |
| DiscussionBoard.DiscussionPage.HandleTagClick | src/pages/Discussion/Discussion.jsx:135-137 | the selected tag becomes what the tag click gives |
| DiscussionBoard.DiscussionPage.HandleCreateDiscussion | src/pages/Discussion/Discussion.jsx:147-168 | a blank title or blank content changes nothing; otherwise the new thread goes first with no replies or views, under "Help", by "Current User", with the form's tags, and the form is emptied and closed; the new thread's tags are distinct |
| DiscussionBoard.DiscussionPage.HandleAddTag | src/pages/Discussion/Discussion.jsx:170-178 | a non-empty trimmed input not yet among the tags is appended and the input cleared; otherwise nothing changes; the tags stay distinct, non-empty and trimmed |
| DiscussionBoard.DiscussionPage.HandleKeyPress | src/pages/Discussion/Discussion.jsx:184-188 | Enter adds the tag as the add button does; any other key changes nothing |
| DiscussionBoard.DiscussionPage.HandleRemoveTag | src/pages/Discussion/Discussion.jsx:180-182 | the tags lose every occurrence of the removed tag and stay distinct, non-empty and trimmed |
| ProfileNew.ClaimableTokens | src/pages/Profile/ProfileNew.jsx:189 | levels 1 to 6 get the page's table entry; any other level gets the default 10 |
| ProfileNew.TablesAgreeUpToSix | src/pages/Profile/ProfileNew.jsx:20-27 | up to level 6 the page offers what the progress service's level table pays; at levels 7 to 10 it offers less; above 10 both give 10 |
| ProfileNew.ClaimFor | src/pages/Profile/ProfileNew.jsx:130-137 | the inserted row is a pending claim for the user at the current level, for the displayed amount |
| ProfileNew.ButtonClaimsRepeat | src/pages/Profile/ProfileNew.jsx:116-159 | the page checks no earlier claim, so pressing the button twice leaves two pending claim rows for the same level |
| ProfileNew.ProfilePage.constructor | src/pages/Profile/ProfileNew.jsx:38-39 | the page starts with no message and no claim in progress |
| ProfileNew.ProfilePage.HandleClaimTokens | src/pages/Profile/ProfileNew.jsx:116-159 | without a wallet address it reports the error and writes nothing; otherwise it appends one pending claim and announces the amount, or, when the insert fails, writes nothing and shows the error's message or the default text; the busy flag ends cleared |

## Left out

- Backend and identity services. The Supabase and Firebase clients and the auth service are not modelled. Each call's outcome is a parameter instead: an `Option<DbError>` fault for a table call, a `Result` for sign-in, sign-up and sign-out. A failed write leaves its table unchanged.
- UserContext's `onAuthStateChanged` listener and `fetchUserDetails`: the profile they would load is the `stored` parameter of `UserContext.UserProvider.Login`.
- A sign-in or sign-up call that throws is the `Threw` answer of `FormValidation.Answer`. The message the thrown error carries is not modelled.
- Register.jsx gets its `register` through `hooks/useUser`, which reads a context from `contexts/createUserContext`; that file is not part of this model. The page passes four arguments (full name, username, email, password), where `UserContext.register` takes three. The page is modelled against a register call whose answer is a parameter.
- Network and dynamic loading. The fetch of `/courses.json`, the fetch of lesson markdown (the response is the `fetch` parameter of `CourseService.FetchLessonMarkdown`) and the dynamic course loader are not modelled.
- Non-determinism:
  - `Date.now()` ids and timestamps are a `now` parameter.
  - The random `transactionHash` of a claimed certificate is not modelled.
  - The random mock progress and enrollment of the newer provider are not modelled.
  - The `setTimeout` that clears banners is not modelled.
- Loading and busy flags are modelled only where a handler sets them around its call. Spinners and other rendering are not modelled.
- Floating point. `Math.round(k/n*100)` is exact half-up rounding on integers. Float rounding error is not modelled. Ratings and prices are reals.
- CourseCatalog.FilteredCoursesSpec: the catalogue's comparators subtract `students`, `rating` and `price` with no `|| 0`, so a course missing the compared number makes a comparison NaN and leaves the order to the JavaScript engine. The order and tie claims are stated only when every listed course carries the compared number (`CourseCatalog.ComparedPresent`); the listing's contents are stated for every input. `CourseCatalog.FilteredCourses` reads a missing number as 0, which is one of the orders an engine may give.
- CourseCatalog.FilteredCoursesOrder: requires `CourseCatalog.ComparedPresent` for the same reason; with a number missing the source promises no order.
- Text.ToLower: lowers only the ASCII letters A to Z. JavaScript's `toLowerCase` lowers every Unicode letter, and can change the length (as for "İ"), so a search for "é" finds "École" in the pages but not in the model. The searches of CourseCatalog, CourseCatalogNew and DiscussionBoard and `SubmissionForm.Extension` inherit this.
- Text.ParseInt: values beyond 2^53 are exact integers here, where JavaScript rounds them to the nearest double.
- CourseCatalog.FilteredCoursesOrder: the "newest" order compares a `joinedAt` parameter that stands for `new Date(c.joinDate or 0)`. Date parsing is not modelled.
- CourseCatalogNew.FilteredCoursesSpec: the "newest" order compares a `createdAt` parameter that stands for the parsed `created_at`. Date parsing is not modelled.
- Catalog: a course always has a modules list. A course with no `modules` array at all, which some pages guard against, is not modelled. A module without a `lessons` array is modelled.
- CourseUtils.GetCourseProgress: the percentage is an exact rational rounded half up (`Percent.PercentOf`), with NaN and Infinity as their own values. Float rounding of `completedLessons / totalLessons * 100` is not modelled.
- CourseUtils.RecordLessonCompletion: the default `points = 10` of src/utils/courseUtils.js:178 is not modelled. `points` is always passed, as the only caller does (src/pages/LessonViewer/LessonViewerNew.jsx:79).
- CourseContext.CompletedIffAllDone: stated for courses of fewer than 200 lessons, because from 200 lessons on one lesson short already rounds to 100 % (`Percent.OneShortRoundsToHundred`).
- ModuleList.Stats: the duration is summed in the lessons' own unit. The minutes-to-hours display text is not modelled.
- ProfileNew.ProfilePage.HandleClaimTokens: `current_level` is an integer. A null level, which the page would look up as 10 tokens, is not modelled, and neither is a missing user (the page then shows its log-in prompt).
- ProfileNew's `handleSaveProfile`, `copyWalletAddress` and profile form are not modelled. They are profile editing, not progression.
- In `getUserProgressStats`, when every failed count carries an empty message, the model's error text is empty where JavaScript gives `undefined`.
- courseUtils `fetchAllCourses`, `fetchCourseById`, `fetchLessonMarkdown`, `fetchUserEnrollments`, `submitAssignment` and `updateCourseProgress` are not modelled. They are plain reads or writes without progression rules.
- courseService functions that are single reads or writes with no progression rule of their own are not modelled:
  - `fetchCourses` (src/services/courseService.js:7), `fetchCourseById` (:30) and `getUserEnrollments` (:129).
  - `recordLessonCompletion` (:156) is one upsert of a progress row. It has no already-completed check and awards no points. The courseUtils version, which has both, is `CourseUtils.RecordLessonCompletion`.
  - `getCourseProgress` (:196) returns the raw progress rows, with no count or percentage.
  - `submitAssignment` (:260), `completeCourse` (:333), `getUserCompletions` (:364), `submitPeerReview` (:390) and `recordLevelClaim` (:461) are single inserts, upserts or reads.
  - `getSubmissionsForLesson` (:298), `fetchPeerReviews` (:427) and `fetchReviewRequests` (:534) are listings. Only their shared user-name fallback is modelled (`CourseService.SubmitterName`).
- The CourseContextSupabase provider's asynchronous loading is not modelled. Its enrollment test, membership in the user's enrollments, is `CourseCatalogNew.ButtonFor`.
- React batching and re-rendering. Each handler's state updates apply in program order. A stale read is read from the state before the update, as the code does (`CourseContext.BonusFollowsPriorState`).
- Presentational components, routing, route guards and the browser prompt in the review-requests modal are not modelled.

## Findings

| source | as written | input that shows it | evidently intended | confidence | as-written member | corrected member |
|---|---|---|---|---|---|---|
| src/pages/LessonViewer/LessonViewer.jsx:179-186 | the sidebar click flattens `m.lessons` without the `or []` fallback the rest of the page uses, so a module without a lessons array puts `undefined` into the list, and `.find` throws when it reads `id` of it | a course whose first module has no lessons array and whose second module holds lesson "l1"; clicking "l1" throws instead of opening it | flatten with the empty fallback, as `getAllLessons` does, and open an existing, unlocked lesson | not executed | LessonViewer.SidebarClickThrows | LessonViewer.SidebarClick |
| src/pages/CourseCatalog/CourseCatalog.jsx:197-205 | the card's button calls `handleEnroll` whether it reads "Enroll" or "Continue", and enrolling sets the course's progress to 0 | an enrolled course at 60 % progress; pressing "Continue" leaves it at 0 % | "Continue" only opens the course page; "Enroll" enrolls and opens it | not executed | CourseCatalog.ContinueResetsProgress | CourseCatalog.CourseButton |
