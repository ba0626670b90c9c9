/**
 * The review form under a book: the checks before a review is added, the payloads sent for
 * add, update and delete, the error message each handler shows when its request fails, the
 * list of reviews of the book and which of them the user may edit.
 *
 * Each handler is a function from the form state (and the outcome of its request, a parameter)
 * to the new state, the request sent and the `onSubmit` callback made; `ReviewForm` is the
 * component's React state, whose methods follow those functions.
 */
module Reviews {
  import opened Wrappers
  import opened Text
  import opened Seqs
  import opened Forms

  datatype Review = Review(id: string, userId: string, bookId: string, rating: int, comment: string)

  /** The editable part of the component: the stars, the text, the review being edited and the error shown. */
  datatype FormState = FormState(rating: int, comment: string, editing: Option<Review>, error: Option<string>)

  datatype Request =
    | AddRequest(bookId: string, rating: int, comment: string)
    | UpdateRequest(reviewId: string, rating: int, comment: string)
    | DeleteRequest(reviewId: string)

  /** The argument of the optional `onSubmit` prop. */
  datatype Callback = Callback(rating: int, comment: string)

  /** One run of a handler. */
  datatype Step = Step(state: FormState, sent: Option<Request>, callback: Option<Callback>)

  const RatingRequired: string := "Vui lòng chọn đánh giá"
  const CommentRequired: string := "Vui lòng nhập bình luận"
  const AddFailed: string := "Có lỗi xảy ra khi thêm đánh giá. Vui lòng thử lại sau."
  const UpdateFailed: string := "Có lỗi xảy ra khi cập nhật đánh giá. Vui lòng thử lại sau."
  const DeleteFailed: string := "Có lỗi xảy ra khi xóa đánh giá. Vui lòng thử lại sau."

  const Empty: FormState := FormState(0, "", None, None)

  // ---------------------------------------------------------------------------
  // Error messages

  /** The add handler shows the server's message if there is one, else its default. */
  function AddErrorMessage(e: ErrorValue): (r: string)
    ensures Truthy(e.responseMessage) ==> r == e.responseMessage.value
    ensures !Truthy(e.responseMessage) ==> r == AddFailed
  {
    OrElse(e.responseMessage, AddFailed)
  }

  /** The update and delete handlers prefer the error's own message, then the server's, then a default. */
  function LaterErrorMessage(e: ErrorValue, default: string): (r: string)
    ensures Truthy(e.message) ==> r == e.message.value
    ensures !Truthy(e.message) && Truthy(e.responseMessage) ==> r == e.responseMessage.value
    ensures !Truthy(e.message) && !Truthy(e.responseMessage) ==> r == default
  {
    if Truthy(e.message) then e.message.value else OrElse(e.responseMessage, default)
  }

  /** No handler ever shows an empty error. */
  lemma ErrorMessagesNonEmpty(e: ErrorValue)
    ensures AddErrorMessage(e) != "" && LaterErrorMessage(e, UpdateFailed) != "" && LaterErrorMessage(e, DeleteFailed) != ""
  {
  }

  /** The precedence differs: with both messages present, add shows the server's and update shows the error's own. */
  lemma PrecedenceDiffers(own: string, server: string)
    requires own != "" && server != "" && own != server
    ensures AddErrorMessage(ErrorValue(Some(own), Some(server))) == server
    ensures LaterErrorMessage(ErrorValue(Some(own), Some(server)), UpdateFailed) == own
  {
  }

  // ---------------------------------------------------------------------------
  // Adding a review

  /** The checks of `handleSubmit`, in order: a rating first, then a non-blank comment. */
  function Validate(rating: int, comment: string): (r: Option<string>)
    ensures rating == 0 ==> r == Some(RatingRequired)
    ensures rating != 0 && IsBlank(comment) ==> r == Some(CommentRequired)
    ensures r.None? <==> rating != 0 && !IsBlank(comment)
  {
    TrimEmptyIffBlank(comment);
    if rating == 0 then Some(RatingRequired)
    else if Trim(comment) == "" then Some(CommentRequired)
    else None
  }

  /** `handleSubmit` for the book `bookId`; `hasCallback` says whether the `onSubmit` prop is given. */
  function Submit(st: FormState, bookId: string, hasCallback: bool, result: ApiResult): (r: Step)
    ensures r.state.editing == st.editing
    ensures r.sent.Some? ==> r.sent.value.AddRequest? && r.sent.value.bookId == bookId && r.sent.value.rating == st.rating
    ensures r.callback.Some? ==> hasCallback && result.Ok? && r.sent.Some?
    ensures r.state.error.None? <==> r.sent.Some? && result.Ok?
  {
    match Validate(st.rating, st.comment)
    case Some(message) => Step(st.(error := Some(message)), None, None)
    case None =>
      var sent := Some(AddRequest(bookId, st.rating, Trim(st.comment)));
      match result
      case Ok =>
        Step(st.(rating := 0, comment := "", error := None), sent,
             if hasCallback then Some(Callback(st.rating, st.comment)) else None)
      case Err(e) => Step(st.(error := Some(AddErrorMessage(e))), sent, None)
  }

  /** A missing rating is reported first, whatever the comment, and nothing is sent. */
  lemma MissingRatingReportedFirst(st: FormState, bookId: string, hasCallback: bool, result: ApiResult)
    requires st.rating == 0
    ensures var r := Submit(st, bookId, hasCallback, result);
            r.state == st.(error := Some(RatingRequired)) && r.sent.None? && r.callback.None?
  {
  }

  /** A blank comment is reported once a rating is chosen, and nothing is sent. */
  lemma BlankCommentRejected(st: FormState, bookId: string, hasCallback: bool, result: ApiResult)
    requires st.rating != 0 && IsBlank(st.comment)
    ensures var r := Submit(st, bookId, hasCallback, result);
            r.state == st.(error := Some(CommentRequired)) && r.sent.None? && r.callback.None?
  {
  }

  /** A request is sent exactly when both checks pass, and it carries the trimmed comment. */
  lemma SentIffValid(st: FormState, bookId: string, hasCallback: bool, result: ApiResult)
    ensures var r := Submit(st, bookId, hasCallback, result);
            (r.sent.Some? <==> st.rating != 0 && !IsBlank(st.comment)) &&
            (r.sent.Some? ==> r.sent.value == AddRequest(bookId, st.rating, Trim(st.comment)))
  {
  }

  /**
   * After a successful add the form is empty and the error cleared, and `onSubmit` receives the
   * rating and the comment as typed, untrimmed.
   */
  lemma SuccessfulAdd(st: FormState, bookId: string, hasCallback: bool)
    requires st.rating != 0 && !IsBlank(st.comment)
    ensures var r := Submit(st, bookId, hasCallback, Ok);
            r.state == FormState(0, "", st.editing, None) &&
            r.callback == (if hasCallback then Some(Callback(st.rating, st.comment)) else None)
  {
  }

  /** A failed add keeps what was typed and shows the add handler's message. */
  lemma FailedAddKeepsInput(st: FormState, bookId: string, hasCallback: bool, e: ErrorValue)
    requires st.rating != 0 && !IsBlank(st.comment)
    ensures var r := Submit(st, bookId, hasCallback, Err(e));
            r.state == st.(error := Some(AddErrorMessage(e))) && r.callback.None?
  {
  }

  /** The API receives the trimmed comment, `onSubmit` the comment as typed. */
  lemma ApiAndCallbackComments(st: FormState, bookId: string)
    requires st.rating != 0 && !IsBlank(st.comment)
    ensures var r := Submit(st, bookId, true, Ok);
            r.sent.value.comment == Trim(st.comment) && r.callback.value.comment == st.comment
  {
  }

  // ---------------------------------------------------------------------------
  // Editing, updating and deleting

  /** `handleEdit(review)`. */
  function Edit(st: FormState, review: Review): (r: FormState)
    ensures r.editing == Some(review) && r.rating == review.rating && r.comment == review.comment && r.error.None?
  {
    FormState(review.rating, review.comment, Some(review), None)
  }

  /** `handleUpdate`: only while editing; the current rating and comment are sent as they are, unchecked. */
  function Update(st: FormState, result: ApiResult): (r: Step)
    ensures r.sent.Some? <==> st.editing.Some?
    ensures r.sent.Some? ==> r.sent.value.UpdateRequest? && r.sent.value.reviewId == st.editing.value.id
    ensures r.callback.None?
    ensures st.editing.Some? && result.Ok? ==> r.state == Empty
  {
    if st.editing.None? then Step(st, None, None)
    else
      var sent := Some(UpdateRequest(st.editing.value.id, st.rating, st.comment));
      match result
      case Ok => Step(Empty, sent, None)
      case Err(e) => Step(st.(error := Some(LaterErrorMessage(e, UpdateFailed))), sent, None)
  }

  /** `handleDelete(reviewId)`. */
  function Delete(st: FormState, reviewId: string, result: ApiResult): (r: Step)
    ensures r.sent == Some(DeleteRequest(reviewId)) && r.callback.None?
    ensures r.state.rating == st.rating && r.state.comment == st.comment
    ensures r.state.error.None? <==> result.Ok?
  {
    var sent := Some(DeleteRequest(reviewId));
    match result
    case Ok => Step(st.(editing := None, error := None), sent, None)
    case Err(e) => Step(st.(error := Some(LaterErrorMessage(e, DeleteFailed))), sent, None)
  }

  /** Without a review being edited, update does nothing at all. */
  lemma UpdateNeedsEditing(st: FormState, result: ApiResult)
    requires st.editing.None?
    ensures Update(st, result) == Step(st, None, None)
  {
  }

  /** Editing and then updating unchanged sends the review's own rating and comment under its id. */
  lemma EditThenUpdate(st: FormState, review: Review, result: ApiResult)
    ensures Update(Edit(st, review), result).sent == Some(UpdateRequest(review.id, review.rating, review.comment))
    ensures Update(Edit(st, review), Ok).state == Empty
  {
  }

  /** Unlike add, update checks nothing: a zero rating and a blank comment are sent. */
  lemma UpdateSkipsChecks(review: Review)
    ensures var st := FormState(0, " ", Some(review), None);
            Update(st, Ok).sent == Some(UpdateRequest(review.id, 0, " ")) &&
            Submit(st, review.bookId, false, Ok).sent.None?
  {
    assert IsBlank(" ");
  }

  /** A successful delete leaves the stars and the text in the form; it only ends editing and clears the error. */
  lemma DeleteKeepsDraft(st: FormState, reviewId: string)
    ensures var r := Delete(st, reviewId, Ok).state;
            r.rating == st.rating && r.comment == st.comment && r.editing.None? && r.error.None?
  {
  }

  // ---------------------------------------------------------------------------
  // The review list

  /** `allReviews?.filter(r => r.book_id === bookId) || []`. */
  function FilteredReviews(all: Option<seq<Review>>, bookId: string): (r: seq<Review>)
    ensures all.None? ==> r == []
    ensures all.Some? ==> forall i :: 0 <= i < |r| ==> r[i] in all.value && r[i].bookId == bookId
    ensures all.Some? ==> forall i :: 0 <= i < |all.value| && all.value[i].bookId == bookId ==> all.value[i] in r
  {
    if all.None? then [] else Filter(all.value, (x: Review) => x.bookId == bookId)
  }

  /** A list holding only reviews of the book is shown whole, in order. */
  lemma SameBookKeepsAll(all: seq<Review>, bookId: string)
    requires forall i :: 0 <= i < |all| ==> all[i].bookId == bookId
    ensures FilteredReviews(Some(all), bookId) == all
  {
    FilterKeepsAll(all, (x: Review) => x.bookId == bookId);
  }

  /** `u => u.user_id === review.user_id`. */
  function SameAuthor(review: Review): Review -> bool {
    (u: Review) => u.userId == review.userId
  }

  /** `userReviews?.some(u => u.user_id === review.user_id)`: falsy while the user's reviews are not loaded. */
  predicate CanEditReview(userReviews: Option<seq<Review>>, review: Review) {
    userReviews.Some? && Exists(userReviews.value, SameAuthor(review))
  }

  /**
   * The edit and delete buttons appear on a review exactly when one of the user's reviews has the
   * same author, so on every review by that author once the user has any review of this book.
   */
  lemma CanEditIffSameAuthor(userReviews: Option<seq<Review>>, review: Review)
    ensures CanEditReview(userReviews, review) <==>
            userReviews.Some? && exists i :: 0 <= i < |userReviews.value| && userReviews.value[i].userId == review.userId
  {
  }

  lemma OwnReviewEditable(userReviews: seq<Review>, i: nat, other: Review)
    requires i < |userReviews| && other.userId == userReviews[i].userId
    ensures CanEditReview(Some(userReviews), other)
  {
    assert SameAuthor(other)(userReviews[i]);
  }

  // ---------------------------------------------------------------------------
  // The component

  class ReviewForm {
    const bookId: string
    const hasCallback: bool
    var rating: int
    var comment: string
    var editing: Option<Review>
    var error: Option<string>
    /** Every request sent, in order. */
    var sent: seq<Request>
    /** Every call of `onSubmit`, in order. */
    var callbacks: seq<Callback>

    function State(): FormState
      reads this
    {
      FormState(rating, comment, editing, error)
    }

    constructor (bookId: string, hasCallback: bool)
      ensures this.bookId == bookId && this.hasCallback == hasCallback
      ensures State() == Empty && sent == [] && callbacks == []
    {
      this.bookId := bookId;
      this.hasCallback := hasCallback;
      rating := 0;
      comment := "";
      editing := None;
      error := None;
      sent := [];
      callbacks := [];
    }

    /** Sets the component state from a handler step and records its request and callback. */
    method Record(step: Step)
      modifies this
      ensures State() == step.state
      ensures sent == old(sent) + (if step.sent.Some? then [step.sent.value] else [])
      ensures callbacks == old(callbacks) + (if step.callback.Some? then [step.callback.value] else [])
    {
      rating, comment, editing, error := step.state.rating, step.state.comment, step.state.editing, step.state.error;
      if step.sent.Some? {
        sent := sent + [step.sent.value];
      }
      if step.callback.Some? {
        callbacks := callbacks + [step.callback.value];
      }
    }

    /** One of the five star buttons. */
    method SetRating(star: int)
      requires 1 <= star <= 5
      modifies this
      ensures State() == old(State()).(rating := star)
      ensures sent == old(sent) && callbacks == old(callbacks)
    {
      rating := star;
    }

    method SetComment(text: string)
      modifies this
      ensures State() == old(State()).(comment := text)
      ensures sent == old(sent) && callbacks == old(callbacks)
    {
      comment := text;
    }

    /** The Cancel button of the add form. */
    method CancelAdd()
      modifies this
      ensures State() == old(State()).(rating := 0, comment := "", error := None)
      ensures sent == old(sent) && callbacks == old(callbacks)
    {
      rating, comment, error := 0, "", None;
    }

    /** The Cancel button of the edit form. */
    method CancelEdit()
      modifies this
      ensures State() == Empty
      ensures sent == old(sent) && callbacks == old(callbacks)
    {
      rating, comment, editing, error := 0, "", None, None;
    }

    method HandleSubmit(result: ApiResult)
      modifies this
      ensures var step := Submit(old(State()), bookId, hasCallback, result);
              State() == step.state &&
              sent == old(sent) + (if step.sent.Some? then [step.sent.value] else []) &&
              callbacks == old(callbacks) + (if step.callback.Some? then [step.callback.value] else [])
    {
      var step := Submit(State(), bookId, hasCallback, result);
      Record(step);
    }

    method HandleEdit(review: Review)
      modifies this
      ensures State() == Edit(old(State()), review)
      ensures sent == old(sent) && callbacks == old(callbacks)
    {
      rating, comment, editing, error := review.rating, review.comment, Some(review), None;
    }

    method HandleUpdate(result: ApiResult)
      modifies this
      ensures var step := Update(old(State()), result);
              State() == step.state &&
              sent == old(sent) + (if step.sent.Some? then [step.sent.value] else []) &&
              callbacks == old(callbacks)
    {
      var step := Update(State(), result);
      Record(step);
    }

    method HandleDelete(reviewId: string, result: ApiResult)
      modifies this
      ensures var step := Delete(old(State()), reviewId, result);
              State() == step.state && sent == old(sent) + [DeleteRequest(reviewId)] && callbacks == old(callbacks)
    {
      var step := Delete(State(), reviewId, result);
      Record(step);
    }
  }
}
