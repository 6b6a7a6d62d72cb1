/** The peer-review page: a cursor over the submissions open for review,
    the rating and feedback being written, and the ids reviewed during the
    visit. */
module PeerReview {
  import opened Wrappers
  import opened Text
  import Dict
  import CC = CourseContext

  const DefaultRating := 5

  /** `disabled={!feedback.trim() || isAlreadyReviewed}`, negated. */
  function SubmitEnabled(feedback: string, submittedReviews: set<string>, currentId: string): (r: bool)
    ensures r <==> (exists i :: 0 <= i < |feedback| && !IsSpace(feedback[i])) && currentId !in submittedReviews
  {
    TrimEmptyIffAllSpace(feedback);
    Trim(feedback) != [] && currentId !in submittedReviews
  }

  class ReviewPage {
    const provider: CC.CourseProvider
    const courseId: string
    const lessonId: string
    /** The submissions listed when the page rendered. */
    const submissions: seq<CC.Submission>
    var index: int
    var rating: int
    var feedback: string
    var submittedReviews: set<string>

    /** The cursor points at a listed submission. */
    ghost predicate Valid()
      reads this
    {
      0 <= index < |submissions| && forall i :: 0 <= i < |submissions| ==> submissions[i].Submission?
    }

    /** The page with its first submission showing; with nothing to review
        the page shows an empty state instead, and has no cursor. */
    constructor(provider: CC.CourseProvider, courseId: string, lessonId: string)
      requires |provider.GetPeerReviewSubmissions(courseId, lessonId)| > 0
      ensures Valid()
      ensures this.provider == provider && this.courseId == courseId && this.lessonId == lessonId
      ensures submissions == provider.GetPeerReviewSubmissions(courseId, lessonId)
      ensures index == 0 && rating == DefaultRating && feedback == "" && submittedReviews == {}
    {
      this.provider := provider;
      this.courseId := courseId;
      this.lessonId := lessonId;
      var listed := provider.GetPeerReviewSubmissions(courseId, lessonId);
      CC.PeerReviewListingIsNarrower(Dict.Values(provider.submissions), courseId, lessonId);
      assert forall i :: 0 <= i < |listed| ==> listed[i] in listed;
      submissions := listed;
      index := 0;
      rating := DefaultRating;
      feedback := "";
      submittedReviews := {};
    }

    /** Feedback made only of white space, which `trim` empties. */
    static predicate Blank(feedback: string) {
      forall i :: 0 <= i < |feedback| ==> IsSpace(feedback[i])
    }

    function CurrentId(): string
      reads this
      requires Valid()
    {
      submissions[index].id
    }

    /** `handleSubmitReview`: blank feedback does nothing. Otherwise the
        review is recorded for the current submission, its id joins the
        reviewed set, the form resets, and the cursor moves on, or the page
        is left (`leave`) after the last submission. */
    method HandleSubmitReview(now: string) returns (leave: bool)
      modifies this`index, this`rating, this`feedback, this`submittedReviews, provider
      requires Valid() && provider.Valid()
      ensures Valid() && provider.Valid()
      ensures Blank(old(feedback)) ==>
        !leave && index == old(index) && rating == old(rating) && feedback == old(feedback)
        && submittedReviews == old(submittedReviews) && provider.State() == old(provider.State())
      ensures !Blank(old(feedback)) ==>
        submittedReviews == old(submittedReviews) + {old(CurrentId())}
        && feedback == "" && rating == DefaultRating
        && (leave <==> old(index) == |submissions| - 1)
        && index == (if leave then old(index) else old(index) + 1)
      ensures !Blank(old(feedback)) ==>
        provider.State() == CC.AfterPeerReview(old(provider.State()), old(CurrentId()),
          CC.PeerReview("review-" + now, CC.CurrentUserId, old(rating), old(feedback), now))
    {
      TrimEmptyIffAllSpace(feedback);
      leave := false;
      if Trim(feedback) != [] {
        var id := submissions[index].id;
        var review, text := rating, feedback;
        submittedReviews := submittedReviews + {id};
        feedback := "";
        rating := DefaultRating;
        if index < |submissions| - 1 {
          index := index + 1;
        } else {
          leave := true;
        }
        var _ := provider.SubmitPeerReview(id, review, text, now);
      }
    }

    /** `handleNext`: one step forward unless on the last submission; the
        form resets only when the cursor moves. */
    method HandleNext()
      modifies this`index, this`rating, this`feedback
      requires Valid()
      ensures Valid()
      ensures old(index) < |submissions| - 1 ==>
        index == old(index) + 1 && feedback == "" && rating == DefaultRating
      ensures old(index) == |submissions| - 1 ==>
        index == old(index) && feedback == old(feedback) && rating == old(rating)
    {
      if index < |submissions| - 1 {
        index := index + 1;
        feedback := "";
        rating := DefaultRating;
      }
    }

    /** `handlePrevious`: one step back unless on the first submission. */
    method HandlePrevious()
      modifies this`index, this`rating, this`feedback
      requires Valid()
      ensures Valid()
      ensures old(index) > 0 ==> index == old(index) - 1 && feedback == "" && rating == DefaultRating
      ensures old(index) == 0 ==> index == 0 && feedback == old(feedback) && rating == old(rating)
    {
      if index > 0 {
        index := index - 1;
        feedback := "";
        rating := DefaultRating;
      }
    }
  }
}
