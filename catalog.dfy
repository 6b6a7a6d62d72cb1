/** The course catalogue: courses made of modules made of lessons, and the
    lookups every page shares (find by id, the flattened lesson order). */
module Catalog {
  import opened Wrappers
  import opened Seqs

  datatype Lesson = Lesson(
    id: string,
    title: string,
    kind: string,              // "lesson", "assignment", "project", ...
    isCompleted: bool,
    isLocked: bool,
    duration: Option<int>,     // minutes
    points: Option<int>)

  /** A module whose `lessons` property may be missing. */
  datatype Module = Module(id: string, title: string, lessons: Option<seq<Lesson>>)

  datatype Course = Course(
    id: string,
    title: string,
    description: string,
    level: string,
    tags: seq<string>,
    students: Option<int>,
    rating: Option<real>,
    price: Option<real>,
    isEnrolled: bool,
    progress: Option<nat>,     // percent; None: not a number
    isCompleted: bool,
    modules: seq<Module>)

  /** `module.lessons || []`. */
  function LessonsOf(m: Module): seq<Lesson> {
    m.lessons.GetOr([])
  }

  /** `modules.flatMap(m => m.lessons || [])`: lessons in reading order. */
  function Flatten(ms: seq<Module>): seq<Lesson> {
    if ms == [] then [] else LessonsOf(ms[0]) + Flatten(ms[1..])
  }

  /** All lessons of a course that may be missing: none when it is. */
  function AllLessons(course: Option<Course>): seq<Lesson> {
    if course.None? then [] else Flatten(course.value.modules)
  }

  /** `modules.reduce((acc, m) => acc + m.lessons.length, 0)`. */
  function TotalLessons(ms: seq<Module>): nat {
    if ms == [] then 0 else |LessonsOf(ms[0])| + TotalLessons(ms[1..])
  }

  /** `courses.findIndex(c => c.id === id)`: the first position holding the
      id, or -1 when none does. */
  function CourseIndex(cs: seq<Course>, id: string): (r: int)
    ensures -1 <= r < |cs|
    ensures r == -1 <==> forall i :: 0 <= i < |cs| ==> cs[i].id != id
    ensures r >= 0 ==> cs[r].id == id && forall j :: 0 <= j < r ==> cs[j].id != id
  {
    FirstIndex(cs, (c: Course) => c.id == id)
  }

  /** `courses.find(c => c.id === id)`: the first course with the id. */
  function FindCourse(cs: seq<Course>, id: string): (r: Option<Course>)
    ensures r == if CourseIndex(cs, id) == -1 then None else Some(cs[CourseIndex(cs, id)])
  {
    Find(cs, (c: Course) => c.id == id)
  }

  /** `lessons.findIndex(l => l.id === id)`: the first position holding the
      id, or -1 when none does. */
  function IndexOf(ls: seq<Lesson>, id: string): (r: int)
    ensures -1 <= r < |ls|
    ensures r == -1 <==> forall i :: 0 <= i < |ls| ==> ls[i].id != id
    ensures r >= 0 ==> ls[r].id == id && forall j :: 0 <= j < r ==> ls[j].id != id
  {
    FirstIndex(ls, (l: Lesson) => l.id == id)
  }

  /** `lessons.find(l => l.id === id)`. */
  function FindLesson(ls: seq<Lesson>, id: string): (r: Option<Lesson>)
    ensures r == if IndexOf(ls, id) == -1 then None else Some(ls[IndexOf(ls, id)])
  {
    Find(ls, (l: Lesson) => l.id == id)
  }

  /** `lessons.map(f)`. */
  function MapLessons(ls: seq<Lesson>, f: Lesson -> Lesson): (r: seq<Lesson>)
    ensures |r| == |ls| && forall i :: 0 <= i < |ls| ==> r[i] == f(ls[i])
  {
    if ls == [] then [] else [f(ls[0])] + MapLessons(ls[1..], f)
  }

  /** `modules.map(m => m.lessons ? {...m, lessons: m.lessons.map(f)} : m)`. */
  function MapModules(ms: seq<Module>, f: Lesson -> Lesson): (r: seq<Module>)
    ensures |r| == |ms|
    ensures forall i :: 0 <= i < |ms| ==>
      r[i].id == ms[i].id && r[i].title == ms[i].title && (r[i].lessons.None? <==> ms[i].lessons.None?)
    ensures forall i :: 0 <= i < |ms| ==>
      r[i].lessons == if ms[i].lessons.Some? then Some(MapLessons(ms[i].lessons.value, f)) else None
  {
    if ms == [] then []
    else
      var m := ms[0];
      [if m.lessons.Some? then m.(lessons := Some(MapLessons(m.lessons.value, f))) else m]
        + MapModules(ms[1..], f)
  }

  lemma {:induction false} FlattenAppend(a: seq<Module>, b: seq<Module>)
    ensures Flatten(a + b) == Flatten(a) + Flatten(b)
  {
    if a == [] {
      assert a + b == b;
    } else {
      var ab := a + b;
      assert ab != [] && ab[0] == a[0];
      assert ab[1..] == a[1..] + b;
      assert Flatten(ab) == LessonsOf(a[0]) + Flatten(a[1..] + b);
      FlattenAppend(a[1..], b);
      assert Flatten(a) == LessonsOf(a[0]) + Flatten(a[1..]);
    }
  }

  /** `findIndex` over two lists joined: the first list's hit, else the
      second list's hit shifted past the first list, else -1. */
  lemma IndexOfAppend(a: seq<Lesson>, b: seq<Lesson>, id: string)
    ensures IndexOf(a + b, id) ==
      if IndexOf(a, id) >= 0 then IndexOf(a, id)
      else if IndexOf(b, id) >= 0 then |a| + IndexOf(b, id)
      else -1
  {
    assert forall j :: 0 <= j < |a| ==> (a + b)[j] == a[j];
    assert forall j :: 0 <= j < |b| ==> (a + b)[|a| + j] == b[j];
  }

  lemma FindLessonAppend(a: seq<Lesson>, b: seq<Lesson>, id: string)
    ensures FindLesson(a + b, id) == if FindLesson(a, id).Some? then FindLesson(a, id) else FindLesson(b, id)
  {
    IndexOfAppend(a, b, id);
    assert forall j :: 0 <= j < |a| ==> (a + b)[j] == a[j];
    assert forall j :: 0 <= j < |b| ==> (a + b)[|a| + j] == b[j];
  }

  /** The flattened list is as long as the lesson counts of the modules add up to. */
  lemma {:induction false} FlattenLength(ms: seq<Module>)
    ensures |Flatten(ms)| == TotalLessons(ms)
  {
    if ms != [] {
      FlattenLength(ms[1..]);
    }
  }

  /** A lesson is in the flattened list exactly when some module holds it. */
  lemma {:induction false} FlattenMembership(ms: seq<Module>, l: Lesson)
    ensures l in Flatten(ms) <==> exists i :: 0 <= i < |ms| && l in LessonsOf(ms[i])
  {
    if ms != [] {
      FlattenMembership(ms[1..], l);
      if exists i :: 0 <= i < |ms[1..]| && l in LessonsOf(ms[1..][i]) {
        var i :| 0 <= i < |ms[1..]| && l in LessonsOf(ms[1..][i]);
        assert ms[i + 1] == ms[1..][i];
      }
      if exists i :: 0 <= i < |ms| && l in LessonsOf(ms[i]) {
        var i :| 0 <= i < |ms| && l in LessonsOf(ms[i]);
        if i > 0 {
          assert ms[1..][i - 1] == ms[i];
        }
      }
    }
  }

  /** Mapping every lesson module by module is mapping the flattened list:
      the order and the number of lessons are kept. */
  lemma {:induction false} FlattenMapModules(ms: seq<Module>, f: Lesson -> Lesson)
    ensures Flatten(MapModules(ms, f)) == MapLessons(Flatten(ms), f)
  {
    if ms != [] {
      FlattenMapModules(ms[1..], f);
      var m := ms[0];
      var r := MapModules(ms, f);
      assert r[1..] == MapModules(ms[1..], f);
      assert LessonsOf(r[0]) == MapLessons(LessonsOf(m), f);
      assert Flatten(ms) == LessonsOf(m) + Flatten(ms[1..]);
      MapLessonsAppend(LessonsOf(m), Flatten(ms[1..]), f);
    }
  }

  lemma MapLessonsAppend(a: seq<Lesson>, b: seq<Lesson>, f: Lesson -> Lesson)
    ensures MapLessons(a + b, f) == MapLessons(a, f) + MapLessons(b, f)
  {
  }

  /** A lesson a learner can pick up: neither completed nor locked. */
  function Resumable(): Lesson -> bool {
    (l: Lesson) => !l.isCompleted && !l.isLocked
  }

  /** The first resumable lesson in reading order. */
  function FirstResumable(ms: seq<Module>): Option<Lesson> {
    Find(Flatten(ms), Resumable())
  }

  /** The lesson picked is resumable and every lesson before it in reading
      order is completed or locked; none is picked exactly when every lesson
      is completed or locked. */
  lemma FirstResumableSpec(ms: seq<Module>)
    ensures var all := Flatten(ms);
      FirstResumable(ms).None? <==> forall i :: 0 <= i < |all| ==> all[i].isCompleted || all[i].isLocked
    ensures var all, r := Flatten(ms), FirstResumable(ms);
      r.Some? ==>
        exists k :: 0 <= k < |all| && all[k] == r.value && !r.value.isCompleted && !r.value.isLocked
          && forall j :: 0 <= j < k ==> all[j].isCompleted || all[j].isLocked
  {
    var all := Flatten(ms);
    var p := Resumable();
    var k := FirstIndex(all, p);
    if k >= 0 {
      assert p(all[k]);
      assert FirstResumable(ms) == Some(all[k]);
      forall j | 0 <= j < k
        ensures all[j].isCompleted || all[j].isLocked
      {
        assert !p(all[j]);
      }
    } else {
      assert FirstResumable(ms).None?;
      forall i | 0 <= i < |all|
        ensures all[i].isCompleted || all[i].isLocked
      {
        assert !p(all[i]);
      }
    }
  }
}
