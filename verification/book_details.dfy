/** The reviews dialog of a book without its rendering: fetching the reviews,
    the review draft, and submitting it. */
module BookDetails {
  import opened Wrappers
  import opened Types
  import Text
  import StarRating
  import ToastStore

  datatype Reviewer = Reviewer(username: string, avatar: string)

  datatype Review = Review(id: string, user: Reviewer, rating: int, comment: string, createdAt: string)

  /** What the reviews endpoint resolves with: an array of reviews, or any
      other value. */
  datatype ReviewsReply = ReviewArray(reviews: seq<Review>) | NotAnArray

  /** The review being written. */
  datatype Draft = Draft(rating: int, comment: string)

  const EmptyDraft := Draft(0, "")

  /** The dialog's local state. */
  datatype View = View(reviews: seq<Review>, draft: Draft, loading: bool, submitting: bool)

  const Initial := View([], EmptyDraft, false, false)

  /** The body of the request that posts a review. */
  datatype ReviewPayload = ReviewPayload(book: string, rating: int, comment: string)

  const FetchFailed := "Failed to fetch reviews"
  const Incomplete := "Please provide both rating and comment"
  const ReviewAdded := "Review added successfully!"
  const AddFailed := "Failed to add review"

  /** `fetchReviews()`: the list is replaced only by an array answer; any
      other answer, like a rejection, keeps the list and notifies an error.
      It never rejects, and it always ends not loading. */
  function FetchReviews(v: View, reply: Outcome<ReviewsReply, Failure>): (r: (View, Option<Toast>))
    ensures !r.0.loading
    ensures r.0.draft == v.draft && r.0.submitting == v.submitting
    ensures reply.Ok? && reply.value.ReviewArray? ==> r.0.reviews == reply.value.reviews && r.1.None?
    ensures !(reply.Ok? && reply.value.ReviewArray?) ==>
              r.0.reviews == v.reviews && r.1 == Some(Toast(FetchFailed, Error))
  {
    match reply
    case Ok(ReviewArray(list)) => (v.(reviews := list, loading := false), None)
    case Ok(NotAnArray) => (v.(loading := false), Some(Toast(FetchFailed, Error)))
    case Err(_) => (v.(loading := false), Some(Toast(FetchFailed, Error)))
  }

  /** The submit guard: a comment that is not blank once trimmed, and a
      rating other than zero. In terms of the draft itself: a star was
      chosen, and some character of the comment is not white space. */
  predicate Ready(d: Draft)
    ensures Ready(d) <==>
              d.rating != 0 && exists i :: 0 <= i < |d.comment| && !Text.IsWhitespace(d.comment[i])
  {
    Text.TrimEmptyIff(d.comment);
    Text.Trim(d.comment) != [] && d.rating != 0
  }

  /** Choosing a star in the draft's control sets its rating and keeps its comment. */
  function ChooseStar(d: Draft, k: int): (r: Draft)
    ensures r.rating == k && r.comment == d.comment
  {
    d.(rating := k)
  }

  /** Any star of the default control gives a rating the guard accepts, so
      after a click only the comment decides. */
  lemma ChosenStarPassesRatingCheck(d: Draft, i: int)
    requires 0 <= i < |StarRating.Stars(StarRating.DefaultMaxRating)|
    ensures Ready(ChooseStar(d, StarRating.Stars(StarRating.DefaultMaxRating)[i])) <==> Text.Trim(d.comment) != []
  {
  }

  /** What one submission leaves behind: the review posted (if any), the
      dialog's state and the notifications emitted, in order. */
  datatype Submission = Submission(sent: Option<ReviewPayload>, view: View, toasts: seq<Toast>)

  /** The path after a successful post: the draft is reset and the reviews
      are fetched again; the success notification is followed by whatever
      the refetch notifies. */
  function AfterPost(v: View, refetch: Outcome<ReviewsReply, Failure>): (r: (View, seq<Toast>))
    ensures r.0.draft == EmptyDraft && !r.0.loading && !r.0.submitting
    ensures |r.1| >= 1 && r.1[0] == Toast(ReviewAdded, Success)
    ensures refetch.Ok? && refetch.value.ReviewArray? ==> r.1 == [Toast(ReviewAdded, Success)]
    ensures !(refetch.Ok? && refetch.value.ReviewArray?) ==>
              r.1 == [Toast(ReviewAdded, Success), Toast(FetchFailed, Error)]
    ensures r.0 == FetchReviews(v.(draft := EmptyDraft, submitting := false), refetch).0
  {
    var fetched := FetchReviews(v.(submitting := true, draft := EmptyDraft), refetch);
    var notified := if fetched.1.Some? then [fetched.1.value] else [];
    (fetched.0.(submitting := false), [Toast(ReviewAdded, Success)] + notified)
  }

  /** `handleSubmitReview`, given how the post and the refetch that follows
      it settle. */
  function SubmitReview(v: View, bookId: string, added: Outcome<Review, Failure>,
                        refetch: Outcome<ReviewsReply, Failure>): (r: Submission)
    ensures r.sent.Some? <==> Ready(v.draft)
    ensures r.sent.Some? ==>
              r.sent.value == ReviewPayload(bookId, v.draft.rating, Text.Trim(v.draft.comment))
              && !r.view.submitting
    ensures r.sent.None? ==> r.view == v && r.toasts == [Toast(Incomplete, Error)]
    ensures r.sent.Some? && added.Err? ==>
              r.view == v.(submitting := false) && r.toasts == [Toast(AddFailed, Error)]
    ensures r.sent.Some? && added.Ok? ==> (r.view, r.toasts) == AfterPost(v, refetch)
  {
    if !Ready(v.draft) then
      Submission(None, v, [Toast(Incomplete, Error)])
    else
      var payload := ReviewPayload(bookId, v.draft.rating, Text.Trim(v.draft.comment));
      match added
      case Err(_) => Submission(Some(payload), v.(submitting := false), [Toast(AddFailed, Error)])
      case Ok(_) =>
        var after := AfterPost(v, refetch);
        Submission(Some(payload), after.0, after.1)
  }

  /** The comment that is posted is never blank and never starts or ends with
      white space. */
  lemma PostedCommentIsClean(v: View, bookId: string, added: Outcome<Review, Failure>,
                             refetch: Outcome<ReviewsReply, Failure>)
    requires SubmitReview(v, bookId, added, refetch).sent.Some?
    ensures var c := SubmitReview(v, bookId, added, refetch).sent.value.comment;
            c != [] && !Text.IsWhitespace(c[0]) && !Text.IsWhitespace(c[|c| - 1])
  {
    var c := Text.Trim(v.draft.comment);
    assert SubmitReview(v, bookId, added, refetch).sent.value.comment == c;
  }

  /** The notification slot keeps only the last message: when the refetch
      after a successful post fails, its error replaces the success message. */
  lemma RefetchFailureHidesSuccess(v: View, bookId: string, review: Review, e: Failure,
                                   slot: ToastStore.ToastState)
    requires Ready(v.draft)
    ensures ToastStore.EmitAll(slot, SubmitReview(v, bookId, Ok(review), Err(e)).toasts)
         == ToastStore.ToastState(Some(FetchFailed), Error)
    ensures ToastStore.EmitAll(slot, SubmitReview(v, bookId, Ok(review), Ok(ReviewArray([]))).toasts)
         == ToastStore.ToastState(Some(ReviewAdded), Success)
  {
    ToastStore.EmitAllKeepsLast(slot, SubmitReview(v, bookId, Ok(review), Err(e)).toasts);
    ToastStore.EmitAllKeepsLast(slot, SubmitReview(v, bookId, Ok(review), Ok(ReviewArray([]))).toasts);
  }
}
