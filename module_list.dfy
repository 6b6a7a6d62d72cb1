/** The module list beside a course: whether a module is done, its rounded
    progress, its lesson counts and duration, and the icon each lesson gets. */
module ModuleList {
  import opened Wrappers
  import opened Seqs
  import opened Catalog
  import opened Percent

  function IsDone(l: Lesson): bool {
    l.isCompleted
  }

  /** `lessons.every(l => l.isCompleted)`. */
  function EveryCompleted(ls: seq<Lesson>): (r: bool)
    ensures r <==> forall i :: 0 <= i < |ls| ==> ls[i].isCompleted
  {
    if ls == [] then true
    else ls[0].isCompleted && EveryCompleted(ls[1..])
  }

  /** `isModuleCompleted`: the module has a lessons array and every lesson in
      it is completed; an empty array counts as completed. */
  function IsModuleCompleted(m: Module): (r: bool)
    ensures r <==> m.lessons.Some? && forall i :: 0 <= i < |m.lessons.value| ==> m.lessons.value[i].isCompleted
    ensures m.lessons == Some([]) ==> r
  {
    m.lessons.Some? && EveryCompleted(m.lessons.value)
  }

  /** `getModuleProgress`: 0 without a lessons array; not a number (None)
      for an empty one; otherwise the rounded share of completed lessons. */
  function ModuleProgress(m: Module): (r: Option<nat>)
    ensures m.lessons.None? ==> r == Some(0)
    ensures r.None? <==> m.lessons == Some([])
    ensures r.Some? ==> r.value <= 100
  {
    if m.lessons.None? then Some(0)
    else
      var done := |Filter(m.lessons.value, IsDone)|;
      if |m.lessons.value| == 0 then None
      else
        RoundPercentInRange(done, |m.lessons.value|);
        RoundedShare(done, |m.lessons.value|)
  }

  /** A completed module with lessons shows 100; with fewer than 200 lessons
      the converse holds too, while from 200 lessons on one lesson short
      already rounds to 100. */
  lemma ProgressOfCompletedModule(m: Module)
    requires m.lessons.Some? && |m.lessons.value| > 0
    ensures IsModuleCompleted(m) ==> ModuleProgress(m) == Some(100)
    ensures |m.lessons.value| < 200 ==> (ModuleProgress(m) == Some(100) <==> IsModuleCompleted(m))
  {
    var ls := m.lessons.value;
    FilterKeepsAll(ls, IsDone);
    if |ls| < 200 {
      HundredMeansAllDone(|Filter(ls, IsDone)|, |ls|);
    } else {
      RoundPercentInRange(|Filter(ls, IsDone)|, |ls|);
    }
  }

  /** `lesson.duration || 0` added up over the lessons. */
  function TotalDuration(ls: seq<Lesson>): int {
    if ls == [] then 0 else ls[0].duration.GetOr(0) + TotalDuration(ls[1..])
  }

  lemma {:induction false} TotalDurationAppend(a: seq<Lesson>, b: seq<Lesson>)
    ensures TotalDuration(a + b) == TotalDuration(a) + TotalDuration(b)
  {
    if a == [] {
      assert a + b == b;
    } else {
      var ab := a + b;
      assert ab != [] && ab[0] == a[0];
      assert ab[1..] == a[1..] + b;
      TotalDurationAppend(a[1..], b);
    }
  }

  /** A course's duration is its modules' durations added up. */
  lemma {:induction false} CourseDuration(ms: seq<Module>)
    ensures TotalDuration(Flatten(ms)) == Sum(seq(|ms|, i requires 0 <= i < |ms| => TotalDuration(LessonsOf(ms[i]))))
  {
    if ms != [] {
      CourseDuration(ms[1..]);
      TotalDurationAppend(LessonsOf(ms[0]), Flatten(ms[1..]));
      var all := seq(|ms|, i requires 0 <= i < |ms| => TotalDuration(LessonsOf(ms[i])));
      var rest := seq(|ms[1..]|, i requires 0 <= i < |ms[1..]| => TotalDuration(LessonsOf(ms[1..][i])));
      assert all == [all[0]] + rest;
      SumAppend([all[0]], rest);
    }
  }

  datatype ModuleStats = ModuleStats(total: nat, completed: nat, duration: int)

  /** `getModuleStats`: all zeros without a lessons array. */
  function Stats(m: Module): (r: ModuleStats)
    ensures m.lessons.None? ==> r == ModuleStats(0, 0, 0)
    ensures m.lessons.Some? ==> r.total == |m.lessons.value| && r.duration == TotalDuration(m.lessons.value)
    ensures r.completed <= r.total
    ensures r.completed == r.total <==> IsModuleCompleted(m) || m.lessons.None?
  {
    if m.lessons.None? then ModuleStats(0, 0, 0)
    else
      var ls := m.lessons.value;
      FilterKeepsAll(ls, IsDone);
      ModuleStats(|ls|, |Filter(ls, IsDone)|, TotalDuration(ls))
  }

  /** A lesson with no negative duration adds no negative time. */
  lemma {:induction false} DurationNonNegative(ls: seq<Lesson>)
    requires forall i :: 0 <= i < |ls| ==> ls[i].duration.GetOr(0) >= 0
    ensures TotalDuration(ls) >= 0
  {
    if ls != [] {
      DurationNonNegative(ls[1..]);
    }
  }

  datatype LessonStatus = Completed | Locked | Playable

  /** The icon: completed before locked before playable. */
  function StatusOf(l: Lesson): (r: LessonStatus)
    ensures r == Completed <==> l.isCompleted
    ensures r == Locked <==> !l.isCompleted && l.isLocked
  {
    if l.isCompleted then Completed else if l.isLocked then Locked else Playable
  }
}
