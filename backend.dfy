/** The hosted database the services talk to, as plain tables. Each table
    the services read or write is a field of `Database`; a call that the
    client reports as failed is an `Error` reply, and a failed write leaves
    its table as it was. */
module Backend {
  import opened Wrappers
  import opened Catalog

  /** An error as the client reports it: a code and a message. */
  datatype DbError = DbError(code: string, message: string)

  /** The code `.single()` reports when the query matched no row or several. */
  const NotSingleCode: string := "PGRST116"

  /** The code of a unique-constraint violation. */
  const UniqueViolationCode: string := "23505"

  /** A reply: the data, or the error that came instead. */
  datatype Reply<T> = Data(data: T) | Error(err: DbError)

  /** `.single()` over the rows a query matched: the row when there is
      exactly one, otherwise error PGRST116; a failing call gives its own
      error whatever the rows. */
  function Single<T>(rows: seq<T>, fault: Option<DbError>): (r: Reply<T>)
    ensures r.Data? <==> fault.None? && |rows| == 1
    ensures r.Data? ==> r.data == rows[0]
    ensures fault.None? && |rows| != 1 ==> r == Error(DbError(NotSingleCode, "JSON object requested, multiple (or no) rows returned"))
  {
    if fault.Some? then Error(fault.value)
    else if |rows| == 1 then Data(rows[0])
    else Error(DbError(NotSingleCode, "JSON object requested, multiple (or no) rows returned"))
  }

  /** A JavaScript number column that may be null; `x || d` also replaces 0. */
  function OrNumber(x: Option<int>, d: int): (r: int)
    ensures x.Some? && x.value != 0 ==> r == x.value
    ensures x.None? || x.value == 0 ==> r == d
  {
    if x.Some? && x.value != 0 then x.value else d
  }

  /** A JavaScript text value that may be null; `s || d` also replaces "". */
  function OrText(x: Option<string>, d: string): (r: string)
    ensures x.Some? && x.value != "" ==> r == x.value
    ensures x.None? || x.value == "" ==> r == d
  {
    if x.Some? && x.value != "" then x.value else d
  }

  /** `users`: the points total and level, either of which may be null. */
  datatype UserRow = UserRow(totalPoints: Option<int>, currentLevel: Option<int>)

  /** `progress`: one lesson's completion record. */
  datatype ProgressRow = ProgressRow(
    userId: string, courseId: string, moduleId: string, lessonId: string,
    completedAt: Option<string>, pointsEarned: int)

  /** `enrollments`. */
  datatype EnrollmentRow = EnrollmentRow(userId: string, courseId: string, status: string)

  /** `token_claims`. */
  datatype ClaimRow = ClaimRow(userId: string, level: int, tokensClaimed: int, status: string)

  /** `completions`, unique on the user and the course. */
  datatype CompletionRow = CompletionRow(userId: string, courseId: string, certificateEligible: bool)

  /** `review_requests`; absent fields are null. */
  datatype RequestRow = RequestRow(
    userId: string, courseId: string, lessonId: string,
    url: Option<string>, githubUrl: Option<string>, question: Option<string>,
    status: string, createdAt: string)

  class Database {
    var users: map<string, UserRow>
    var courses: map<string, Course>
    var progress: seq<ProgressRow>
    var enrollments: seq<EnrollmentRow>
    var tokenClaims: seq<ClaimRow>
    var completions: seq<CompletionRow>
    var reviewRequests: seq<RequestRow>

    constructor()
      ensures users == map[] && courses == map[]
      ensures progress == [] && enrollments == [] && tokenClaims == []
      ensures completions == [] && reviewRequests == []
    {
      users := map[];
      courses := map[];
      progress := [];
      enrollments := [];
      tokenClaims := [];
      completions := [];
      reviewRequests := [];
    }
  }
}
