/**
 * The member-facing inventory page: each book is joined with the name of its category, the
 * list is filtered by a search over title and author and by a category, and a book offers the
 * borrow action only while it is available and in stock.
 */
module Inventory {
  import opened Wrappers
  import opened Text
  import opened Seqs
  import Books
  import Categories
  import opened Forms

  /** A book with the category name the page adds to it. */
  datatype BookWithCategory = BookWithCategory(book: Books.Book, categoryName: string)

  /** `c => c._id === id`. */
  function IdIs(id: string): Categories.Category -> bool {
    (c: Categories.Category) => c.id == id
  }

  /** `categories?.find(c => c._id === id)?.name || "Không có danh mục"`. */
  function CategoryNameOf(categories: Option<seq<Categories.Category>>, id: string): (r: string)
    ensures categories.None? ==> r == Books.NoCategory
    ensures categories.Some? && (forall i :: 0 <= i < |categories.value| ==> categories.value[i].id != id) ==>
              r == Books.NoCategory
  {
    if categories.None? then Books.NoCategory
    else
      match Find(categories.value, IdIs(id))
      case None => Books.NoCategory
      case Some(c) => StrOr(c.name, Books.NoCategory)
  }

  /** The first category carrying the id names the book, or the fallback when its name is empty. */
  lemma FirstMatchLabel(categories: seq<Categories.Category>, i: nat, id: string)
    requires i < |categories| && categories[i].id == id
    requires forall j :: 0 <= j < i ==> categories[j].id != id
    ensures CategoryNameOf(Some(categories), id) == StrOr(categories[i].name, Books.NoCategory)
  {
    var r := Find(categories, IdIs(id));
    var k :| 0 <= k < |categories| && categories[k] == r.value && IdIs(id)(categories[k]) &&
             forall j :: 0 <= j < k ==> !IdIs(id)(categories[j]);
    assert k == i;
  }

  /** The first category carrying the id names the book, unless its name is empty. */
  lemma FirstMatchingCategoryNames(categories: seq<Categories.Category>, i: nat, id: string)
    requires i < |categories| && categories[i].id == id && categories[i].name != ""
    requires forall j :: 0 <= j < i ==> categories[j].id != id
    ensures CategoryNameOf(Some(categories), id) == categories[i].name
  {
    FirstMatchLabel(categories, i, id);
  }

  /**
   * When category ids are distinct, this page and the book list show the same category label
   * (the one picks the first match, the other the last, and here they are the same category).
   */
  lemma AgreesWithBookList(categories: seq<Categories.Category>, id: string)
    requires forall i, j :: 0 <= i < j < |categories| ==> categories[i].id != categories[j].id
    ensures CategoryNameOf(Some(categories), id) == Books.CategoryLabel(Books.CategoryMap(categories), id)
  {
    if i :| 0 <= i < |categories| && categories[i].id == id {
      Books.CategoryMapLastWins(categories, i);
      FirstMatchLabel(categories, i, id);
    } else {
      Books.UnknownCategoryLabel(categories, id);
    }
  }

  /** `booksData?.books?.map(...) || []`: every book joined with its category name, in order. */
  function WithCategories(books: Option<seq<Books.Book>>, categories: Option<seq<Categories.Category>>)
    : (r: seq<BookWithCategory>)
    ensures books.None? ==> r == []
    ensures books.Some? ==> |r| == |books.value|
    ensures books.Some? ==> forall i :: 0 <= i < |r| ==>
              r[i].book == books.value[i] && r[i].categoryName == CategoryNameOf(categories, books.value[i].categoryId)
  {
    if books.None? then []
    else Map(books.value, (b: Books.Book) => BookWithCategory(b, CategoryNameOf(categories, b.categoryId)))
  }

  // ---------------------------------------------------------------------------
  // The filter

  /** A blank query matches everything; otherwise the untrimmed, case-folded query must occur in the title or author. */
  predicate MatchesSearch(b: BookWithCategory, query: string) {
    Trim(query) == "" ||
    Includes(Lower(b.book.title), Lower(query)) || Includes(Lower(b.book.author), Lower(query))
  }

  predicate MatchesCategory(b: BookWithCategory, selected: string) {
    selected == "all" || b.book.categoryId == selected
  }

  predicate Passes(b: BookWithCategory, query: string, selected: string) {
    MatchesSearch(b, query) && MatchesCategory(b, selected)
  }

  /** `filteredBooks`. */
  function FilterBooks(books: seq<BookWithCategory>, query: string, selected: string): (r: seq<BookWithCategory>)
    ensures forall i :: 0 <= i < |r| ==> r[i] in books && Passes(r[i], query, selected)
    ensures forall i :: 0 <= i < |books| && Passes(books[i], query, selected) ==> books[i] in r
  {
    Filter(books, (b: BookWithCategory) => Passes(b, query, selected))
  }

  /** A whitespace-only query keeps every book of the selected category, in order. */
  lemma BlankQueryKeepsCategory(books: seq<BookWithCategory>, query: string, selected: string)
    requires IsBlank(query)
    ensures FilterBooks(books, query, selected) == Filter(books, (b: BookWithCategory) => MatchesCategory(b, selected))
  {
    TrimEmptyIffBlank(query);
    FilterSamePredicate(books, (b: BookWithCategory) => Passes(b, query, selected),
                        (b: BookWithCategory) => MatchesCategory(b, selected));
  }

  /** A non-blank query longer than both the title and the author finds nothing. */
  lemma LongQueryNotFound(b: BookWithCategory, query: string)
    requires !IsBlank(query) && |query| > |b.book.title| && |query| > |b.book.author|
    ensures !MatchesSearch(b, query)
  {
    TrimEmptyIffBlank(query);
    if Includes(Lower(b.book.title), Lower(query)) {
      IncludesNoLonger(Lower(b.book.title), Lower(query));
    }
    if Includes(Lower(b.book.author), Lower(query)) {
      IncludesNoLonger(Lower(b.book.author), Lower(query));
    }
  }

  /**
   * The query is not trimmed before matching: a title typed with a leading space does not find
   * its own book (when the author is no longer than the title).
   */
  lemma QueryIsNotTrimmed(b: BookWithCategory)
    requires !IsBlank(b.book.title) && |b.book.author| <= |b.book.title|
    ensures !MatchesSearch(b, " " + b.book.title)
  {
    var title := b.book.title;
    var i :| 0 <= i < |title| && !IsWhitespace(title[i]);
    assert (" " + title)[i + 1] == title[i];
    LongQueryNotFound(b, " " + title);
  }

  // ---------------------------------------------------------------------------
  // Borrowing

  /** The borrow button is rendered only for an available book with copies left. */
  predicate CanBorrow(b: Books.Book) {
    b.status == Some("available") && b.quantityAvailable > 0
  }

  datatype BorrowPayload = BorrowPayload(userId: string, bookId: string)

  const InvalidUserMessage: string := "Người dùng không hợp lệ."
  const RequestSentMessage: string := "Yêu cầu mượn sách đã được gửi!"
  const DefaultErrorMessage: string := "Đã xảy ra lỗi"

  /**
   * The click handler of the borrow button: with no user id nothing is sent and an error is
   * shown; otherwise `{user_id, book_id}` is sent and the outcome decides the toast.
   */
  function HandleBorrowClick(userId: Option<string>, b: Books.Book, result: ApiResult): (r: (Option<BorrowPayload>, Toast))
    ensures r.0.None? <==> !Truthy(userId)
    ensures !Truthy(userId) ==> r.1 == ErrorToast(InvalidUserMessage)
    ensures r.0.Some? ==> r.0.value == BorrowPayload(userId.value, b.id)
    ensures Truthy(userId) && result.Ok? ==> r.1 == SuccessToast(RequestSentMessage)
    ensures Truthy(userId) && result.Err? ==> r.1 == ErrorToast(OrElse(result.error.responseMessage, DefaultErrorMessage))
  {
    if !Truthy(userId) then (None, ErrorToast(InvalidUserMessage))
    else
      var payload := BorrowPayload(userId.value, b.id);
      match result
      case Ok => (Some(payload), SuccessToast(RequestSentMessage))
      case Err(e) => (Some(payload), ErrorToast(OrElse(e.responseMessage, DefaultErrorMessage)))
  }

  /**
   * The card's button: a book that cannot be borrowed gets a disabled button with no handler
   * (`None`); otherwise a click runs the handler above.
   */
  function BorrowButton(userId: Option<string>, b: Books.Book, result: ApiResult): (r: Option<(Option<BorrowPayload>, Toast)>)
    ensures r.Some? <==> b.status == Some("available") && b.quantityAvailable > 0
    ensures r.Some? && r.value.0.Some? ==> r.value.0.value.bookId == b.id && Truthy(userId)
  {
    if CanBorrow(b) then Some(HandleBorrowClick(userId, b, result)) else None
  }

  /** Whatever the server replies, a failed request shows a non-empty message, and only the server's message is read. */
  lemma FailureMessageNeverEmpty(userId: Option<string>, b: Books.Book, e: ErrorValue)
    requires Truthy(userId)
    ensures HandleBorrowClick(userId, b, Err(e)).1.text != ""
    ensures HandleBorrowClick(userId, b, Err(e)) == HandleBorrowClick(userId, b, Err(e.(message := None)))
  {
  }
}
