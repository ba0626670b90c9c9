/**
 * The add-book form: the schema its fields must satisfy, the values it starts from, and what
 * submitting it sends. The two quantity inputs go through `parseInt`, so an emptied or
 * non-numeric input reaches the schema as NaN, written `None` here.
 */
module BookForm {
  import opened Wrappers
  import opened Text
  import opened Forms

  datatype BookValues = BookValues(
    title: string,
    author: string,
    description: Option<string>,
    quantityTotal: Option<int>,
    quantityAvailable: Option<int>,
    status: string,
    isHidden: bool,
    categoryId: string,
    qrCode: Option<string>)

  /** The members of the status enum; the book type also allows "out_of_stock". */
  const StatusOptions: seq<string> := ["available", "damaged", "lost", "borrowed"]

  const TitleRequired: string := "Tiêu đề là bắt buộc"
  const AuthorRequired: string := "Tác giả là bắt buộc"
  const TotalNegative: string := "Số lượng không được âm"
  const AvailableNegative: string := "Số lượng sẵn có không được âm"
  const CategoryRequired: string := "Danh mục là bắt buộc"
  const AddSucceeded: string := "Thêm sách thành công!"
  const AddFailed: string := "Thêm sách thất bại!"
  const BooksRoute: string := "/books"

  /** `z.number().min(0, message)`: NaN fails with the library's own message, a negative number with ours. */
  function NonNegative(path: string, n: Option<int>, message: string): (r: seq<Issue>)
    ensures r == [] <==> n.Some? && n.value >= 0
    ensures n.None? ==> r == [Issue(path, None)]
    ensures n.Some? && n.value < 0 ==> r == [Issue(path, Some(message))]
  {
    if n.None? then [Issue(path, None)]
    else if n.value < 0 then [Issue(path, Some(message))]
    else []
  }

  /** `z.enum(options)`: a value outside the options fails with the library's own message. */
  function OneOf(path: string, s: string, options: seq<string>): (r: seq<Issue>)
    ensures r == [] <==> s in options
    ensures r != [] ==> r == [Issue(path, None)]
  {
    if s in options then [] else [Issue(path, None)]
  }

  /** `bookSchema`'s issues, in the order of its fields. */
  function BookIssues(v: BookValues): seq<Issue> {
    MinLength("title", v.title, 1, TitleRequired) +
    MinLength("author", v.author, 1, AuthorRequired) +
    NonNegative("quantity_total", v.quantityTotal, TotalNegative) +
    NonNegative("quantity_available", v.quantityAvailable, AvailableNegative) +
    OneOf("status", v.status, StatusOptions) +
    MinLength("category_id", v.categoryId, 1, CategoryRequired)
  }

  /** What the schema demands, rule by rule. Description, visibility and QR code are unconstrained. */
  predicate ValidBook(v: BookValues) {
    v.title != "" && v.author != "" &&
    v.quantityTotal.Some? && v.quantityTotal.value >= 0 &&
    v.quantityAvailable.Some? && v.quantityAvailable.value >= 0 &&
    v.status in StatusOptions &&
    v.categoryId != ""
  }

  /** The schema reports nothing exactly when every rule holds, and each broken rule reports under its own field. */
  lemma BookIssuesIffInvalid(v: BookValues)
    ensures BookIssues(v) == [] <==> ValidBook(v)
    ensures v.title == "" ==> Issue("title", Some(TitleRequired)) in BookIssues(v)
    ensures v.author == "" ==> Issue("author", Some(AuthorRequired)) in BookIssues(v)
    ensures v.categoryId == "" ==> Issue("category_id", Some(CategoryRequired)) in BookIssues(v)
    ensures v.status !in StatusOptions ==> Issue("status", None) in BookIssues(v)
  {
    var a := MinLength("title", v.title, 1, TitleRequired);
    var b := MinLength("author", v.author, 1, AuthorRequired);
    var c := NonNegative("quantity_total", v.quantityTotal, TotalNegative);
    var d := NonNegative("quantity_available", v.quantityAvailable, AvailableNegative);
    var e := OneOf("status", v.status, StatusOptions);
    var f := MinLength("category_id", v.categoryId, 1, CategoryRequired);
    assert BookIssues(v) == a + b + c + d + e + f;
    if v.title == "" { assert a[0] == (a + b + c + d + e + f)[0]; }
    if v.author == "" { assert b[0] == (a + b + c + d + e + f)[|a|]; }
    if v.status !in StatusOptions { assert e[0] == (a + b + c + d + e + f)[|a| + |b| + |c| + |d|]; }
    if v.categoryId == "" { assert f[0] == (a + b + c + d + e + f)[|a| + |b| + |c| + |d| + |e|]; }
  }

  /** The form's starting values. */
  const Defaults: BookValues :=
    BookValues("", "", Some(""), Some(1), Some(1), "available", false, "", Some(""))

  /** The starting values fail only because title, author and category are still empty. */
  lemma DefaultsLackOnlyRequiredText()
    ensures BookIssues(Defaults) ==
              [Issue("title", Some(TitleRequired)), Issue("author", Some(AuthorRequired)),
               Issue("category_id", Some(CategoryRequired))]
    ensures forall t, a, c :: ValidBook(Defaults.(title := t, author := a, categoryId := c)) <==>
              t != "" && a != "" && c != ""
  {
  }

  /** The two quantities are checked on their own: more copies available than in total still passes. */
  lemma QuantitiesCheckedIndependently(v: BookValues, total: int, available: int)
    requires total >= 0 && available >= 0
    ensures ValidBook(v.(quantityTotal := Some(total), quantityAvailable := Some(available))) <==>
            ValidBook(v.(quantityTotal := Some(0), quantityAvailable := Some(0)))
  {
  }

  /** A status the book type allows but the enum leaves out is rejected. */
  lemma OutOfStockRejected(v: BookValues)
    requires v.status == "out_of_stock"
    ensures !ValidBook(v)
    ensures Issue("status", None) in BookIssues(v)
  {
    BookIssuesIffInvalid(v);
  }

  // ---------------------------------------------------------------------------
  // Submitting

  /** The chosen image's upload, an external call: skipped without an image, or its `secure_url`, or a throw. */
  datatype Upload = NoImage | Uploaded(secureUrl: string) | UploadFailed(error: ErrorValue)

  /** `{...values, image_url}`. */
  datatype BookPayload = BookPayload(values: BookValues, imageUrl: string)

  /**
   * `form.handleSubmit(onSubmit)`: failing values show their issues; otherwise the image is
   * uploaded, the book is sent with the image's address, and the outcome of the upload and of
   * the request picks the toast and whether the page moves to the book list.
   */
  function Submit(v: BookValues, upload: Upload, result: ApiResult): (r: Outcome<BookPayload>)
    ensures r.issues == BookIssues(v)
    ensures r.sent.Some? <==> ValidBook(v) && !upload.UploadFailed?
    ensures r.sent.Some? ==> r.sent.value.values == v
    ensures r.sent.Some? ==> r.sent.value.imageUrl == (if upload.Uploaded? then upload.secureUrl else "")
    ensures r.toast.None? <==> !ValidBook(v)
    ensures r.navigateTo.Some? <==> r.sent.Some? && result.Ok?
    ensures r.navigateTo.Some? ==> r.navigateTo.value == BooksRoute && r.toast == Some(SuccessToast(AddSucceeded))
    ensures ValidBook(v) && upload.UploadFailed? ==> r.toast == Some(ErrorToast(OrElse(upload.error.responseMessage, AddFailed)))
    ensures r.sent.Some? && result.Err? ==> r.toast == Some(ErrorToast(OrElse(result.error.responseMessage, AddFailed)))
  {
    BookIssuesIffInvalid(v);
    var issues := BookIssues(v);
    if issues != [] then Rejected(issues)
    else
      match upload
      case UploadFailed(e) => Outcome(issues, None, Some(ErrorToast(OrElse(e.responseMessage, AddFailed))), None)
      case NoImage => Send(BookPayload(v, ""), result)
      case Uploaded(url) => Send(BookPayload(v, url), result)
  }

  /** `await addBook(...)` and what its outcome shows. */
  function Send(payload: BookPayload, result: ApiResult): Outcome<BookPayload> {
    match result
    case Ok => Outcome([], Some(payload), Some(SuccessToast(AddSucceeded)), Some(BooksRoute))
    case Err(e) => Outcome([], Some(payload), Some(ErrorToast(OrElse(e.responseMessage, AddFailed))), None)
  }

  /** A book added without an image carries an empty image address, and every error toast has text. */
  lemma NoImageEmptyUrl(v: BookValues, result: ApiResult)
    requires ValidBook(v)
    ensures Submit(v, NoImage, result).sent == Some(BookPayload(v, ""))
    ensures forall u :: Submit(v, u, result).toast.value.text != ""
  {
  }
}
