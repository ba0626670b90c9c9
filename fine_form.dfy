/**
 * The add-fine form: the member comes from the `userId` query parameter, the book is picked
 * from the catalogue, and the amount typed in (a number input read with `Number`) is cut to its
 * integer part before it is sent.
 */
module FineForm {
  import opened Wrappers
  import opened Text
  import opened Seqs
  import opened Forms
  import Books

  /** `is_paid` as the form holds it: the schema defaults a missing value to false. */
  datatype FineValues = FineValues(userId: string, bookId: string, amount: real, reason: string, isPaid: Option<bool>)

  /** `submitData`: the amount is now a whole number and `is_paid` is always present. */
  datatype FinePayload = FinePayload(userId: string, bookId: string, amount: int, reason: string, isPaid: bool)

  const MemberRequired: string := "Vui lòng chọn hội viên"
  const BookRequired: string := "Vui lòng chọn sách"
  const AmountRequired: string := "Vui lòng nhập số tiền phạt"
  const ReasonRequired: string := "Vui lòng nhập lý do phạt"
  const AddSucceeded: string := "Thêm phạt thành công!"
  const AddFailed: string := "Thêm phạt thất bại!"
  const FinesRoute: string := "/fine"
  const NoBookChosen: string := "Chọn sách"

  /** `formSchema`'s issues, in the order of its fields. */
  function FineIssues(v: FineValues): seq<Issue> {
    MinLength("user_id", v.userId, 1, MemberRequired) +
    MinLength("book_id", v.bookId, 1, BookRequired) +
    (if v.amount < 1.0 then [Issue("amount", Some(AmountRequired))] else []) +
    MinLength("reason", v.reason, 1, ReasonRequired)
  }

  /** What the schema demands: a member, a book, an amount of at least one and a reason. */
  predicate ValidFine(v: FineValues) {
    v.userId != "" && v.bookId != "" && v.amount >= 1.0 && v.reason != ""
  }

  /** The schema reports nothing exactly when every rule holds, and a too-small amount reports under `amount`. */
  lemma FineIssuesIffInvalid(v: FineValues)
    ensures FineIssues(v) == [] <==> ValidFine(v)
    ensures v.amount < 1.0 ==> Issue("amount", Some(AmountRequired)) in FineIssues(v)
  {
    var a := MinLength("user_id", v.userId, 1, MemberRequired);
    var b := MinLength("book_id", v.bookId, 1, BookRequired);
    var c := if v.amount < 1.0 then [Issue("amount", Some(AmountRequired))] else [];
    var d := MinLength("reason", v.reason, 1, ReasonRequired);
    assert FineIssues(v) == a + b + c + d;
    if v.amount < 1.0 { assert c[0] == (a + b + c + d)[|a| + |b|]; }
  }

  /** `parseInt(x.toString())`: the integer part, cutting toward zero. */
  function Trunc(x: real): (r: int)
    ensures x >= 0.0 ==> r as real <= x < r as real + 1.0
    ensures x < 0.0 ==> r as real - 1.0 < x <= r as real
  {
    if x >= 0.0 then x.Floor else -((-x).Floor)
  }

  /** `onSubmit`'s `submitData`. */
  function SubmitData(v: FineValues): (r: FinePayload)
    ensures r.userId == v.userId && r.bookId == v.bookId && r.reason == v.reason
    ensures v.amount >= 0.0 ==> r.amount as real <= v.amount < r.amount as real + 1.0
    ensures r.isPaid <==> v.isPaid == Some(true)
  {
    FinePayload(v.userId, v.bookId, Trunc(v.amount), v.reason, v.isPaid.GetOr(false))
  }

  /** A payload built from passing values keeps its texts, bills at least one and never more than was typed. */
  lemma SubmitDataOfValid(v: FineValues)
    requires ValidFine(v)
    ensures var p := SubmitData(v);
            p.userId == v.userId && p.bookId == v.bookId && p.reason == v.reason &&
            1 <= p.amount && p.amount as real <= v.amount < p.amount as real + 1.0
    ensures SubmitData(v).isPaid <==> v.isPaid == Some(true)
  {
  }

  /** `(router.query.userId as string) || ""`. */
  function QueryUserId(q: Option<string>): (r: string)
    ensures Truthy(q) ==> r == q.value
    ensures !Truthy(q) ==> r == ""
  {
    OrElse(q, "")
  }

  /** The starting values: the member from the query, nothing else chosen, amount zero. */
  function Defaults(q: Option<string>): FineValues {
    FineValues(QueryUserId(q), "", 0.0, "", Some(false))
  }

  /** The starting values always fail, at least on the book, the amount and the reason. */
  lemma DefaultsRejected(q: Option<string>)
    ensures !ValidFine(Defaults(q))
    ensures Issue("amount", Some(AmountRequired)) in FineIssues(Defaults(q))
    ensures FineIssues(Defaults(q)) ==
              MinLength("user_id", QueryUserId(q), 1, MemberRequired) +
              [Issue("book_id", Some(BookRequired)), Issue("amount", Some(AmountRequired)), Issue("reason", Some(ReasonRequired))]
  {
    var v := Defaults(q);
    var a := MinLength("user_id", v.userId, 1, MemberRequired);
    var rest := [Issue("book_id", Some(BookRequired)), Issue("amount", Some(AmountRequired)), Issue("reason", Some(ReasonRequired))];
    assert FineIssues(v) == a + rest;
    assert rest[1] == (a + rest)[|a| + 1];
  }

  /** The effect on `[userId]`: a non-empty parameter overwrites the member field, an empty one leaves it. */
  function SyncUserId(v: FineValues, q: Option<string>): (r: FineValues)
    ensures r.(userId := v.userId) == v
    ensures Truthy(q) ==> r.userId == q.value
    ensures !Truthy(q) ==> r == v
  {
    var userId := QueryUserId(q);
    if userId != "" then v.(userId := userId) else v
  }

  /** Once synced with a non-empty parameter, the member rule holds. */
  lemma SyncedMemberPasses(v: FineValues, q: Option<string>)
    requires Truthy(q)
    ensures Issue("user_id", Some(MemberRequired)) !in FineIssues(SyncUserId(v, q))
  {
    var w := SyncUserId(v, q);
    var a := MinLength("user_id", w.userId, 1, MemberRequired);
    var b := MinLength("book_id", w.bookId, 1, BookRequired);
    var c := if w.amount < 1.0 then [Issue("amount", Some(AmountRequired))] else [];
    var d := MinLength("reason", w.reason, 1, ReasonRequired);
    assert FineIssues(w) == a + b + c + d;
  }

  /** `b => b._id === id`. */
  function BookIdIs(id: string): Books.Book -> bool {
    (b: Books.Book) => b.id == id
  }

  /** The book picker's label: `allBooks?.find(b => b._id === field.value)?.title || "Chọn sách"`. */
  function BookButtonLabel(books: Option<seq<Books.Book>>, bookId: string): (r: string)
    ensures r != ""
    ensures books.None? ==> r == NoBookChosen
    ensures books.Some? && (forall i :: 0 <= i < |books.value| ==> books.value[i].id != bookId) ==> r == NoBookChosen
  {
    if books.None? then NoBookChosen
    else
      match Find(books.value, BookIdIs(bookId))
      case None => NoBookChosen
      case Some(b) => StrOr(b.title, NoBookChosen)
  }

  /** The first book with the chosen id names the button, unless its title is empty. */
  lemma ChosenBookLabelsButton(books: seq<Books.Book>, i: nat)
    requires i < |books| && books[i].title != ""
    requires forall j :: 0 <= j < i ==> books[j].id != books[i].id
    ensures BookButtonLabel(Some(books), books[i].id) == books[i].title
  {
    var r := Find(books, BookIdIs(books[i].id));
    var k :| 0 <= k < |books| && books[k] == r.value && BookIdIs(books[i].id)(books[k]) &&
             forall j :: 0 <= j < k ==> !BookIdIs(books[i].id)(books[j]);
    assert k == i;
  }

  /**
   * `form.handleSubmit(onSubmit)`: failing values show their issues; otherwise `submitData` is
   * sent and the page moves to the fine list on success. A failure shows a fixed message,
   * whatever the server said.
   */
  function Submit(v: FineValues, result: ApiResult): (r: Outcome<FinePayload>)
    ensures r.issues == FineIssues(v)
    ensures r.sent.Some? <==> ValidFine(v)
    ensures r.sent.Some? ==> r.sent.value == SubmitData(v)
    ensures r.toast.None? <==> !ValidFine(v)
    ensures r.navigateTo.Some? <==> ValidFine(v) && result.Ok?
    ensures r.navigateTo.Some? ==> r.navigateTo.value == FinesRoute && r.toast == Some(SuccessToast(AddSucceeded))
    ensures ValidFine(v) && result.Err? ==> r.toast == Some(ErrorToast(AddFailed))
  {
    FineIssuesIffInvalid(v);
    var issues := FineIssues(v);
    if issues != [] then Rejected(issues)
    else
      match result
      case Ok => Outcome(issues, Some(SubmitData(v)), Some(SuccessToast(AddSucceeded)), Some(FinesRoute))
      case Err(_) => Outcome(issues, Some(SubmitData(v)), Some(ErrorToast(AddFailed)), None)
  }

  /** The server's reply never reaches the member: every failure reads the same. */
  lemma FailureIgnoresError(v: FineValues, e1: ErrorValue, e2: ErrorValue)
    ensures Submit(v, Err(e1)) == Submit(v, Err(e2))
  {
  }
}
