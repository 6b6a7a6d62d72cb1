/** The page routes the handlers navigate to. */
module Routes {
  const Login: string := "/login"

  function CourseRoute(courseId: string): string {
    "/courses/" + courseId
  }

  /** A lesson page of the mock provider. */
  function LessonRoute(courseId: string, lessonId: string): string {
    "/courses/" + courseId + "/lessons/" + lessonId
  }

  /** A lesson page of the database-backed viewer. */
  function StoredLessonRoute(courseId: string, lessonId: string): string {
    "/lessons/" + courseId + "/" + lessonId
  }
}
