/** The peer-review request form: the record it hands over and when its
    submit button is enabled. */
module ReviewRequestForm {
  import opened Wrappers
  import opened Text

  const RequestKind: string := "review_request"

  /** The record `handleSubmit` builds. */
  datatype ReviewRequest = ReviewRequest(
    url: Option<string>,
    githubUrl: Option<string>,
    question: Option<string>,
    lessonId: string,
    kind: string)

  /** Each text field trimmed, or null when blank; the lesson's id and the
      fixed kind "review_request". */
  function BuildRequest(url: string, githubUrl: string, question: string, lessonId: string): (r: ReviewRequest)
    ensures r.url == TrimmedOrNull(url) && r.githubUrl == TrimmedOrNull(githubUrl)
    ensures r.question == TrimmedOrNull(question)
    ensures r.lessonId == lessonId && r.kind == RequestKind
  {
    ReviewRequest(TrimmedOrNull(url), TrimmedOrNull(githubUrl), TrimmedOrNull(question), lessonId, RequestKind)
  }

  /** `disabled={isSubmitting || !question.trim()}`, negated. */
  function SubmitEnabled(isSubmitting: bool, question: string): (r: bool)
    ensures r <==> !isSubmitting && exists i :: 0 <= i < |question| && !IsSpace(question[i])
  {
    TrimEmptyIffAllSpace(question);
    !isSubmitting && Trim(question) != []
  }

  /** A request sent through the enabled button always carries a question,
      and that question has no surrounding white space. */
  lemma EnabledSubmitHasQuestion(url: string, githubUrl: string, question: string, lessonId: string)
    requires SubmitEnabled(false, question)
    ensures BuildRequest(url, githubUrl, question, lessonId).question.Some?
    ensures var q := BuildRequest(url, githubUrl, question, lessonId).question.value;
      q != [] && !IsSpace(q[0]) && !IsSpace(q[|q| - 1])
  {
  }
}
