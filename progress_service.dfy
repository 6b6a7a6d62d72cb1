/** The triangular level scale and the token rewards kept in the database:
    the points a level needs, the level a points total reaches, the tokens a
    level pays, and the services that add points, claim tokens and report a
    user's progress. */
module ProgressService {
  import opened Wrappers
  import opened Seqs
  import opened Sorting
  import opened Backend

  // ---------------------------------------------------------------------
  // The level scale

  /** `LEVEL_CONFIG`: the tokens paid on reaching levels 1 to 10. */
  function LevelConfig(level: int): Option<nat> {
    match level
    case 1 => Some(10)
    case 2 => Some(50)
    case 3 => Some(70)
    case 4 => Some(100)
    case 5 => Some(150)
    case 6 => Some(200)
    case 7 => Some(250)
    case 8 => Some(300)
    case 9 => Some(350)
    case 10 => Some(400)
    case _ => None
  }

  /** `getTokensForLevel`: the configured tokens, 10 for a level outside the table. */
  function TokensForLevel(level: int): (r: nat)
    ensures (1 <= level <= 10) <==> LevelConfig(level).Some?
    ensures 10 <= r <= 400
    ensures !(1 <= level <= 10) ==> r == 10
  {
    LevelConfig(level).GetOr(10)
  }

  /** The table pays more for every higher level. */
  lemma TokensForLevelGrows(a: int, b: int)
    requires 1 <= a < b <= 10
    ensures TokensForLevel(a) < TokensForLevel(b)
  {
  }

  /** The points a level needs, in closed form: 500 times 1 + 2 + ... + (L - 1). */
  function PointsForLevel(level: int): nat {
    if level <= 1 then 0 else 250 * level * (level - 1)
  }

  /** From one level to the next takes 500 points per level already held. */
  lemma PointsForLevelStep(level: int)
    requires level >= 1
    ensures PointsForLevel(level + 1) == PointsForLevel(level) + 500 * level
  {
    if level > 1 {
      calc {
        PointsForLevel(level + 1);
        250 * (level + 1) * level;
        250 * level * (level - 1) + 500 * level;
      }
    }
  }

  /** The thresholds strictly increase from level 1 on. */
  lemma {:induction false} PointsForLevelIncreases(a: int, b: int)
    requires 1 <= a < b
    ensures PointsForLevel(a) < PointsForLevel(b)
    decreases b - a
  {
    PointsForLevelStep(a);
    if a + 1 < b {
      PointsForLevelIncreases(a + 1, b);
    }
  }

  /** `calculatePointsForLevel`: the loop adding 500 * i for each level below. */
  method CalculatePointsForLevel(level: int) returns (total: int)
    ensures total == PointsForLevel(level)
  {
    total := 0;
    var i := 1;
    while i < level
      invariant 1 <= i <= (if level < 1 then 1 else level)
      invariant total == PointsForLevel(i)
    {
      PointsForLevelStep(i);
      total := total + 500 * i;
      i := i + 1;
    }
  }

  /** `level` is the level of `points`: at least 1, the next threshold not
      reached, and, above level 1, its own threshold reached. */
  predicate IsLevelOf(level: int, points: int) {
    level >= 1 && points < PointsForLevel(level + 1)
    && (level == 1 || PointsForLevel(level) <= points)
  }

  /** `calculateLevel`: climb from level 1 while the next threshold is
      within the total. */
  method CalculateLevel(totalPoints: int) returns (level: int)
    ensures IsLevelOf(level, totalPoints)
  {
    level := 1;
    var next := CalculatePointsForLevel(level + 1);
    while next <= totalPoints
      invariant level >= 1 && next == PointsForLevel(level + 1)
      invariant level == 1 || PointsForLevel(level) <= totalPoints
      decreases totalPoints - PointsForLevel(level)
    {
      PointsForLevelIncreases(level, level + 1);
      level := level + 1;
      next := CalculatePointsForLevel(level + 1);
    }
  }

  /** For a non-negative total, the level is the largest one whose threshold
      the total reaches. */
  lemma LevelIsLargest(level: int, points: int, higher: int)
    requires points >= 0 && IsLevelOf(level, points)
    requires higher > level
    ensures PointsForLevel(level) <= points < PointsForLevel(higher)
  {
    if higher > level + 1 {
      PointsForLevelIncreases(level + 1, higher);
    }
  }

  /** A larger total never has a smaller level; with equal totals the
      levels agree. */
  lemma LevelMonotone(l1: int, p1: int, l2: int, p2: int)
    requires IsLevelOf(l1, p1) && IsLevelOf(l2, p2) && p1 <= p2
    ensures l1 <= l2
    ensures p1 == p2 ==> l1 == l2
  {
    if l1 > l2 + 1 {
      PointsForLevelIncreases(l2 + 1, l1);
    } else if p1 == p2 && l2 > l1 + 1 {
      PointsForLevelIncreases(l1 + 1, l2);
    }
  }

  // ---------------------------------------------------------------------
  // Points

  /** What `addPointsToUser` reports on success. */
  datatype PointsAdded = PointsAdded(user: UserRow, leveledUp: bool, newLevel: int, oldLevel: int)

  /** `addPointsToUser`: read the user, add the points, recompute the level
      and write both back. A failed read or write reports its message and
      leaves the users table alone. */
  method AddPointsToUser(db: Database, userId: string, pointsToAdd: int,
                         fetchFault: Option<DbError>, updateFault: Option<DbError>)
    returns (r: Result<PointsAdded>)
    modifies db`users
    ensures r.Failure? ==> db.users == old(db.users)
    ensures r.Success? <==> userId in old(db.users) && fetchFault.None? && updateFault.None?
    ensures r.Success? ==>
      var before := old(db.users)[userId];
      var total := OrNumber(before.totalPoints, 0) + pointsToAdd;
      r.value.oldLevel == OrNumber(before.currentLevel, 1)
      && IsLevelOf(r.value.newLevel, total)
      && (r.value.leveledUp <==> r.value.newLevel > r.value.oldLevel)
      && r.value.user == UserRow(Some(total), Some(r.value.newLevel))
      && db.users == old(db.users)[userId := r.value.user]
  {
    var fetched := Single(if userId in db.users then [db.users[userId]] else [], fetchFault);
    if fetched.Error? {
      return Failure(fetched.err.message);
    }
    var user := fetched.data;
    var currentPoints := OrNumber(user.totalPoints, 0);
    var oldLevel := OrNumber(user.currentLevel, 1);
    var newTotalPoints := currentPoints + pointsToAdd;
    var newLevel := CalculateLevel(newTotalPoints);
    var leveledUp := newLevel > oldLevel;
    if updateFault.Some? {
      return Failure(updateFault.value.message);
    }
    var updated := UserRow(Some(newTotalPoints), Some(newLevel));
    db.users := db.users[userId := updated];
    return Success(PointsAdded(updated, leveledUp, newLevel, oldLevel));
  }

  // ---------------------------------------------------------------------
  // Token claims

  /** The filter `.eq("user_id", userId).eq("level", level)`. */
  function ClaimMatches(userId: string, level: int): ClaimRow -> bool {
    (c: ClaimRow) => c.userId == userId && c.level == level
  }

  /** The claims a user holds for a level. */
  function ClaimsFor(claims: seq<ClaimRow>, userId: string, level: int): seq<ClaimRow> {
    Filter(claims, ClaimMatches(userId, level))
  }

  /** At most one claim per user and level. */
  ghost predicate ClaimsUnique(claims: seq<ClaimRow>) {
    forall i, j :: 0 <= i < j < |claims| ==>
      claims[i].userId != claims[j].userId || claims[i].level != claims[j].level
  }

  /** No claim matches exactly when the matched rows are none. */
  lemma ClaimsForEmpty(claims: seq<ClaimRow>, userId: string, level: int)
    ensures ClaimsFor(claims, userId, level) == [] <==>
      forall i :: 0 <= i < |claims| ==> claims[i].userId != userId || claims[i].level != level
  {
    FilterMembers(claims, ClaimMatches(userId, level));
    FilterAllOrNone(claims, ClaimMatches(userId, level));
  }

  /** With claims unique, a user and level match at most one row. */
  lemma {:induction false} ClaimsForAtMostOne(claims: seq<ClaimRow>, userId: string, level: int)
    requires ClaimsUnique(claims)
    ensures |ClaimsFor(claims, userId, level)| <= 1
  {
    if claims != [] {
      var rest := claims[1..];
      assert ClaimsUnique(rest) by {
        forall i, j | 0 <= i < j < |rest|
          ensures rest[i].userId != rest[j].userId || rest[i].level != rest[j].level
        {
          assert rest[i] == claims[i + 1] && rest[j] == claims[j + 1];
        }
      }
      ClaimsForAtMostOne(rest, userId, level);
      if claims[0].userId == userId && claims[0].level == level {
        forall i | 0 <= i < |rest|
          ensures rest[i].userId != userId || rest[i].level != level
        {
          assert rest[i] == claims[i + 1];
        }
        ClaimsForEmpty(rest, userId, level);
      }
    }
  }

  /** `claimTokens`: refused when the check finds the claim; otherwise one
      pending claim paying the level's tokens is inserted. A failing check
      finds nothing, so only a check that succeeds protects against a second
      claim. */
  method ClaimTokens(db: Database, userId: string, level: int,
                     checkFault: Option<DbError>, insertFault: Option<DbError>)
    returns (r: Result<nat>)
    modifies db`tokenClaims
    ensures var found := checkFault.None? && |ClaimsFor(old(db.tokenClaims), userId, level)| == 1;
      r.Success? <==> !found && insertFault.None?
    ensures r.Failure? ==> db.tokenClaims == old(db.tokenClaims)
    ensures r.Success? ==>
      r.value == TokensForLevel(level)
      && db.tokenClaims == old(db.tokenClaims) + [ClaimRow(userId, level, TokensForLevel(level), "pending")]
  {
    var tokens := TokensForLevel(level);
    var existing := Single(ClaimsFor(db.tokenClaims, userId, level), checkFault);
    if existing.Data? {
      return Failure("Tokens already claimed for this level");
    }
    if insertFault.Some? {
      return Failure(insertFault.value.message);
    }
    db.tokenClaims := db.tokenClaims + [ClaimRow(userId, level, tokens, "pending")];
    return Success(tokens);
  }

  /** A claim whose check succeeded keeps the claims unique, and it is refused
      when the user already holds one for the level. */
  lemma ClaimKeepsUnique(claims: seq<ClaimRow>, userId: string, level: int)
    requires ClaimsUnique(claims)
    ensures |ClaimsFor(claims, userId, level)| != 1 ==>
      ClaimsUnique(claims + [ClaimRow(userId, level, TokensForLevel(level), "pending")])
    ensures (exists i :: 0 <= i < |claims| && claims[i].userId == userId && claims[i].level == level) ==>
      |ClaimsFor(claims, userId, level)| == 1
  {
    ClaimsForAtMostOne(claims, userId, level);
    ClaimsForEmpty(claims, userId, level);
  }

  /** `canClaimTokens`: the user's level (null counting as 0) reaches the
      level, and the check for an earlier claim finds none. */
  method CanClaimTokens(db: Database, userId: string, level: int,
                        userFault: Option<DbError>, claimFault: Option<DbError>)
    returns (r: Result<bool>)
    ensures r.Success? <==> userId in db.users && userFault.None?
    ensures r.Success? ==>
      (r.value <==> db.users[userId].currentLevel.GetOr(0) >= level
                    && !(claimFault.None? && |ClaimsFor(db.tokenClaims, userId, level)| == 1))
  {
    var user := Single(if userId in db.users then [db.users[userId]] else [], userFault);
    if user.Error? {
      return Failure(user.err.message);
    }
    var claimed := Single(ClaimsFor(db.tokenClaims, userId, level), claimFault);
    var canClaim := user.data.currentLevel.GetOr(0) >= level && !claimed.Data?;
    return Success(canClaim);
  }

  /** With unique claims and a check that succeeds, eligibility is exactly:
      level reached and no claim for it yet. */
  lemma CanClaimMeansUnclaimed(claims: seq<ClaimRow>, userId: string, level: int)
    requires ClaimsUnique(claims)
    ensures |ClaimsFor(claims, userId, level)| == 1 <==>
      exists i :: 0 <= i < |claims| && claims[i].userId == userId && claims[i].level == level
  {
    ClaimsForAtMostOne(claims, userId, level);
    ClaimsForEmpty(claims, userId, level);
  }

  /** The tokens of a list of claims added up. */
  function TokensOf(claims: seq<ClaimRow>): int {
    if claims == [] then 0 else claims[0].tokensClaimed + TokensOf(claims[1..])
  }

  lemma {:induction false} TokensOfAppend(a: seq<ClaimRow>, b: seq<ClaimRow>)
    ensures TokensOf(a + b) == TokensOf(a) + TokensOf(b)
  {
    if a == [] {
      assert a + b == b;
    } else {
      var ab := a + b;
      assert ab != [] && ab[0] == a[0];
      assert ab[1..] == a[1..] + b;
      TokensOfAppend(a[1..], b);
    }
  }

  /** Inserting a claim adds its tokens. */
  lemma {:induction false} TokensOfInsert(t: seq<ClaimRow>, x: ClaimRow, key: ClaimRow -> real)
    ensures TokensOf(Insert(t, x, key)) == TokensOf(t) + x.tokensClaimed
  {
    if t != [] && key(t[0]) <= key(x) {
      var r := Insert(t, x, key);
      assert r == [t[0]] + Insert(t[1..], x, key);
      assert r[1..] == Insert(t[1..], x, key);
      TokensOfInsert(t[1..], x, key);
    }
  }

  /** Sorting claims does not change their total. */
  lemma {:induction false} TokensOfSortBy(s: seq<ClaimRow>, key: ClaimRow -> real)
    ensures TokensOf(SortBy(s, key)) == TokensOf(s)
  {
    if s != [] {
      var init, last := s[..|s| - 1], s[|s| - 1];
      TokensOfSortBy(init, key);
      TokensOfInsert(SortBy(init, key), last, key);
      assert s == init + [last];
      TokensOfAppend(init, [last]);
    }
  }

  /** The user's claims, highest level first, and their tokens added up. */
  datatype TokenClaims = TokenClaims(claims: seq<ClaimRow>, totalTokens: int)

  function LevelDescending(c: ClaimRow): real {
    -(c.level as real)
  }

  function ClaimsOfUser(claims: seq<ClaimRow>, userId: string): seq<ClaimRow> {
    Filter(claims, (c: ClaimRow) => c.userId == userId)
  }

  /** `getUserTokenClaims`: the user's claims ordered by level, highest
      first, and the sum of their tokens. */
  method GetUserTokenClaims(db: Database, userId: string, fault: Option<DbError>)
    returns (r: Result<TokenClaims>)
    ensures r.Success? <==> fault.None?
    ensures r.Success? ==>
      var mine := ClaimsOfUser(db.tokenClaims, userId);
      multiset(r.value.claims) == multiset(mine)
      && SortedBy(r.value.claims, LevelDescending)
      && r.value.totalTokens == TokensOf(mine)
  {
    if fault.Some? {
      return Failure(fault.value.message);
    }
    var mine := ClaimsOfUser(db.tokenClaims, userId);
    var data := SortBy(mine, LevelDescending);
    var total := 0;
    var i := 0;
    while i < |data|
      invariant 0 <= i <= |data|
      invariant total + TokensOf(data[i..]) == TokensOf(data)
    {
      assert data[i..] == [data[i]] + data[i + 1..];
      total := total + data[i].tokensClaimed;
      i := i + 1;
    }
    SortBySorted(mine, LevelDescending);
    SortByPermutes(mine, LevelDescending);
    TokensOfSortBy(mine, LevelDescending);
    return Success(TokenClaims(data, total));
  }

  // ---------------------------------------------------------------------
  // Progress statistics

  datatype ProgressStats = ProgressStats(
    totalPoints: Option<int>,
    currentLevel: Option<int>,
    lessonsCompleted: nat,
    coursesEnrolled: nat,
    coursesCompleted: nat,
    pointsProgress: int,
    pointsNeeded: int,
    progressPercentage: real)

  /** The first non-empty message among the failed counts, as
      `a?.message || b?.message || c?.message` picks it. */
  function FirstMessage(a: Option<DbError>, b: Option<DbError>, c: Option<DbError>): string {
    if a.Some? && a.value.message != "" then a.value.message
    else if b.Some? && b.value.message != "" then b.value.message
    else if c.Some? then c.value.message
    else ""
  }

  function CountProgress(rows: seq<ProgressRow>, userId: string): nat {
    |Filter(rows, (p: ProgressRow) => p.userId == userId)|
  }

  function CountEnrollments(rows: seq<EnrollmentRow>, userId: string): nat {
    |Filter(rows, (e: EnrollmentRow) => e.userId == userId)|
  }

  function CountCompletions(rows: seq<CompletionRow>, userId: string): nat {
    |Filter(rows, (c: CompletionRow) => c.userId == userId)|
  }

  /** `getUserProgressStats`: the user's points and level, the three row
      counts, and where the points stand between this level's threshold and
      the next. A null level counts as 0 and a null total as 0 in the
      arithmetic. */
  method GetUserProgressStats(db: Database, userId: string, userFault: Option<DbError>,
                              progressFault: Option<DbError>, enrollFault: Option<DbError>,
                              completeFault: Option<DbError>)
    returns (r: Result<ProgressStats>)
    ensures r.Success? <==>
      userId in db.users && userFault.None? && progressFault.None? && enrollFault.None? && completeFault.None?
    ensures userId in db.users && userFault.None? && r.Failure? ==>
      r.error == FirstMessage(progressFault, enrollFault, completeFault)
    ensures r.Success? ==>
      var user := db.users[userId];
      var level := user.currentLevel.GetOr(0);
      var s := r.value;
      s.totalPoints == user.totalPoints && s.currentLevel == user.currentLevel
      && s.lessonsCompleted == CountProgress(db.progress, userId)
      && s.coursesEnrolled == CountEnrollments(db.enrollments, userId)
      && s.coursesCompleted == CountCompletions(db.completions, userId)
      && s.pointsProgress == user.totalPoints.GetOr(0) - PointsForLevel(level)
      && s.pointsNeeded == (if level >= 1 then 500 * level else 0)
      && s.progressPercentage ==
           (if s.pointsNeeded > 0 then (s.pointsProgress as real / s.pointsNeeded as real) * 100.0 else 0.0)
  {
    var user := Single(if userId in db.users then [db.users[userId]] else [], userFault);
    if user.Error? {
      return Failure(user.err.message);
    }
    if progressFault.Some? || enrollFault.Some? || completeFault.Some? {
      return Failure(FirstMessage(progressFault, enrollFault, completeFault));
    }
    var lessonsCompleted := CountProgress(db.progress, userId);
    var coursesEnrolled := CountEnrollments(db.enrollments, userId);
    var coursesCompleted := CountCompletions(db.completions, userId);
    var level := user.data.currentLevel.GetOr(0);
    var pointsForNextLevel := CalculatePointsForLevel(level + 1);
    var pointsForLevel := CalculatePointsForLevel(level);
    var pointsProgress := user.data.totalPoints.GetOr(0) - pointsForLevel;
    var pointsNeeded := pointsForNextLevel - pointsForLevel;
    if level >= 1 {
      PointsForLevelStep(level);
    }
    var percentage := if pointsNeeded > 0 then (pointsProgress as real / pointsNeeded as real) * 100.0 else 0.0;
    return Success(ProgressStats(user.data.totalPoints, user.data.currentLevel, lessonsCompleted,
                                 coursesEnrolled, coursesCompleted, pointsProgress, pointsNeeded, percentage));
  }

  /** When the stored level is the level of the stored total, the progress
      lies in [0, needed) and the percentage in [0, 100). */
  lemma ProgressWithinLevel(total: int, level: int)
    requires IsLevelOf(level, total) && total >= 0
    ensures 0 <= total - PointsForLevel(level) < 500 * level
    ensures 0.0 <= ((total - PointsForLevel(level)) as real / (500 * level) as real) * 100.0 < 100.0
  {
    PointsForLevelStep(level);
    var progress := total - PointsForLevel(level);
    assert 0 <= progress < 500 * level;
    PercentBelowHundred(progress as real, (500 * level) as real);
  }

  /** A part below its positive whole is a percentage in [0, 100). */
  lemma PercentBelowHundred(part: real, whole: real)
    requires 0.0 <= part < whole
    ensures 0.0 <= (part / whole) * 100.0 < 100.0
  {
    assert part / whole < 1.0 by {
      assert (part / whole) * whole == part;
    }
  }
}
