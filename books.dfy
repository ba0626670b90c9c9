/**
 * The book list page: search over title, author and QR code, a status filter, the id-to-name
 * category map, the multi-key sort with its special case for the status column, and ten rows
 * per page. `BookPage` holds the page's React state.
 */
module Books {
  import opened Wrappers
  import opened Text
  import opened Seqs
  import opened MultiSort
  import Pagination
  import Categories

  /**
   * A book as fetched. The status is one of the five names of the book type, but the
   * comparator is written for a record whose status is missing, so the model keeps it optional.
   */
  datatype Book = Book(
    id: string,
    title: string,
    author: string,
    categoryId: string,
    quantityTotal: int,
    quantityAvailable: int,
    status: Option<string>,
    qrCode: Option<string>,
    createdAt: string)

  datatype BookKey = TitleKey | AuthorKey | CategoryIdKey | QuantityTotalKey | QuantityAvailableKey
                   | StatusKey | CreatedAtKey

  const PageSize: nat := 10

  /** The label shown for a category id the map does not resolve. */
  const NoCategory: string := "Không có danh mục"

  // ---------------------------------------------------------------------------
  // The filter

  predicate MatchesSearch(b: Book, search: string) {
    var s := Lower(search);
    Includes(Lower(b.title), s) || Includes(Lower(b.author), s) ||
    (b.qrCode.Some? && Includes(Lower(b.qrCode.value), s))
  }

  /** `status && status !== "all" ? book.status === status : true`. */
  predicate MatchesStatus(b: Book, status: string) {
    status == "" || status == "all" || b.status == Some(status)
  }

  predicate Passes(b: Book, search: string, status: string) {
    MatchesSearch(b, search) && MatchesStatus(b, status)
  }

  /** `filtered`: the books passing both predicates, in fetched order. */
  function FilterBooks(books: seq<Book>, search: string, status: string): (r: seq<Book>)
    ensures forall i :: 0 <= i < |r| ==> r[i] in books && Passes(r[i], search, status)
    ensures forall i :: 0 <= i < |books| && Passes(books[i], search, status) ==> books[i] in r
  {
    Filter(books, (b: Book) => Passes(b, search, status))
  }

  /** A book with no QR code is found only through its title or author. */
  lemma MissingQrCodeNeverMatches(b: Book, search: string)
    requires b.qrCode.None?
    ensures MatchesSearch(b, search) <==> Includes(Lower(b.title), Lower(search)) || Includes(Lower(b.author), Lower(search))
  {
  }

  /** A chosen status keeps exactly the books with that status; "" and "all" keep every status. */
  lemma StatusFilterExact(b: Book, status: string)
    ensures status != "" && status != "all" ==> (MatchesStatus(b, status) <==> b.status == Some(status))
    ensures MatchesStatus(b, "") && MatchesStatus(b, "all")
  {
  }

  /** The initial filters, empty search and "all", show the whole list in fetched order. */
  lemma InitialFiltersKeepAll(books: seq<Book>)
    ensures FilterBooks(books, "", "all") == books
  {
    forall i | 0 <= i < |books| ensures Passes(books[i], "", "all") {
      IncludesEmpty(Lower(books[i].title));
    }
    FilterKeepsAll(books, (b: Book) => Passes(b, "", "all"));
  }

  // ---------------------------------------------------------------------------
  // The category map

  /** `categories.reduce((acc, c) => { acc[c._id] = c.name; return acc }, {})`, folding from the left. */
  function CategoryMap(categories: seq<Categories.Category>): (r: map<string, string>)
    ensures forall id :: id in r ==> exists i :: 0 <= i < |categories| && categories[i].id == id && categories[i].name == r[id]
    decreases |categories|
  {
    if categories == [] then map[]
    else
      var last := categories[|categories| - 1];
      CategoryMap(categories[..|categories| - 1])[last.id := last.name]
  }

  /** An id is in the map exactly when some category carries it. */
  lemma {:induction false} CategoryMapDomain(categories: seq<Categories.Category>, id: string)
    ensures id in CategoryMap(categories) <==> exists i :: 0 <= i < |categories| && categories[i].id == id
    decreases |categories|
  {
    if categories != [] {
      var init := categories[..|categories| - 1];
      CategoryMapDomain(init, id);
      if exists i :: 0 <= i < |init| && init[i].id == id {
        var i :| 0 <= i < |init| && init[i].id == id;
        assert categories[i].id == id;
      }
      if i :| 0 <= i < |categories| && categories[i].id == id {
        if i < |init| {
          assert init[i].id == id;
        }
      }
    }
  }

  /** Among categories sharing an id, the last one's name wins. */
  lemma {:induction false} CategoryMapLastWins(categories: seq<Categories.Category>, i: nat)
    requires i < |categories|
    requires forall j :: i < j < |categories| ==> categories[j].id != categories[i].id
    ensures categories[i].id in CategoryMap(categories)
    ensures CategoryMap(categories)[categories[i].id] == categories[i].name
    decreases |categories|
  {
    var n := |categories|;
    var init := categories[..n - 1];
    var last := categories[n - 1];
    assert CategoryMap(categories) == CategoryMap(init)[last.id := last.name];
    if i < n - 1 {
      assert forall j :: i < j < |init| ==> init[j] == categories[j];
      CategoryMapLastWins(init, i);
      assert last.id != categories[i].id;
    }
  }

  /** `categoryMap[book.category_id] || "Không có danh mục"`: an unknown id, or an empty name, shows the fallback. */
  function CategoryLabel(m: map<string, string>, id: string): (r: string)
    ensures id in m && m[id] != "" ==> r == m[id]
    ensures id !in m || m[id] == "" ==> r == NoCategory
  {
    if id in m then StrOr(m[id], NoCategory) else NoCategory
  }

  /** A book whose category is not in the list is shown with the fallback label. */
  lemma UnknownCategoryLabel(categories: seq<Categories.Category>, id: string)
    requires forall i :: 0 <= i < |categories| ==> categories[i].id != id
    ensures CategoryLabel(CategoryMap(categories), id) == NoCategory
  {
    CategoryMapDomain(categories, id);
  }

  // ---------------------------------------------------------------------------
  // The comparator

  /** `book[key]` as the comparator reads it, with the status special case `value || ""`. */
  function Field(b: Book, k: BookKey): Value {
    match k
    case TitleKey => Str(b.title)
    case AuthorKey => Str(b.author)
    case CategoryIdKey => Str(b.categoryId)
    case QuantityTotalKey => Num(b.quantityTotal)
    case QuantityAvailableKey => Num(b.quantityAvailable)
    case StatusKey => Str(OrElse(b.status, ""))
    case CreatedAtKey => Str(b.createdAt)
  }

  /** A book with no status sorts first, ascending by status, before every book that has a status name. */
  lemma MissingStatusSortsFirst(a: Book, b: Book)
    requires a.status.None? && Truthy(b.status)
    ensures Compare([SortEntry(StatusKey, Asc)], Field, a, b) == -1
    ensures Compare([SortEntry(StatusKey, Desc)], Field, a, b) == 1
  {
  }

  /** The category column sorts by the category id, not by the name the table shows. */
  lemma CategoryColumnSortsById(a: Book, b: Book, d: Direction)
    requires d != NoSort
    ensures Compare([SortEntry(CategoryIdKey, d)], Field, a, b) == 0 <==> a.categoryId == b.categoryId
  {
    StrLessTotal(a.categoryId, b.categoryId);
    StrLessIrreflexive(a.categoryId);
  }

  /** Sorting by total quantity orders numerically, ties included. */
  lemma QuantityColumnNumeric(a: Book, b: Book)
    ensures var r := Compare([SortEntry(QuantityTotalKey, Asc)], Field, a, b);
            (r < 0 <==> a.quantityTotal < b.quantityTotal) && (r == 0 <==> a.quantityTotal == b.quantityTotal)
  {
  }

  // ---------------------------------------------------------------------------
  // The page

  function TotalPages(books: seq<Book>, search: string, status: string): nat {
    Pagination.PageCount(|FilterBooks(books, search, status)|, PageSize)
  }

  /** `paginated`: the filtered books, sorted when a sort is active, sliced ten to a page. */
  function Visible(books: seq<Book>, search: string, status: string, sorts: seq<SortEntry<BookKey>>, page: int,
                   engine: (seq<Book>, (Book, Book) -> int) -> seq<Book>): (r: seq<Book>)
    requires page >= 1 && SortPermutes(engine)
    ensures |r| <= PageSize
    ensures |r| == |Pagination.PageItems(FilterBooks(books, search, status), page, PageSize)|
    ensures forall x :: x in r ==> x in FilterBooks(books, search, status)
    ensures sorts == [] ==> r == Pagination.PageItems(FilterBooks(books, search, status), page, PageSize)
  {
    var sorted := SortedView(FilterBooks(books, search, status), sorts, Field, engine);
    Pagination.PageItemsWindow(sorted, page, PageSize);
    SortedPage(FilterBooks(books, search, status), sorts, Field, engine, page, PageSize);
    Pagination.PageItems(sorted, page, PageSize)
  }

  /** Whatever the sort, every match is shown on one of the pages the controls offer. */
  lemma EveryMatchShown(books: seq<Book>, search: string, status: string, sorts: seq<SortEntry<BookKey>>,
                        engine: (seq<Book>, (Book, Book) -> int) -> seq<Book>, x: Book)
    requires SortPermutes(engine) && x in FilterBooks(books, search, status)
    ensures exists p :: 1 <= p <= TotalPages(books, search, status) &&
                        x in Visible(books, search, status, sorts, p, engine)
  {
    SortedPagesCover(FilterBooks(books, search, status), sorts, Field, engine, PageSize, x);
    var p :| 1 <= p <= TotalPages(books, search, status) &&
             x in Pagination.PageItems(SortedView(FilterBooks(books, search, status), sorts, Field, engine), p, PageSize);
    assert Visible(books, search, status, sorts, p, engine) == Pagination.PageItems(SortedView(FilterBooks(books, search, status), sorts, Field, engine), p, PageSize);
  }

  class BookPage {
    var page: int
    var search: string
    var status: string
    var sorts: seq<SortEntry<BookKey>>

    ghost predicate Valid()
      reads this
    {
      page >= 1 && WellFormed(sorts)
    }

    constructor ()
      ensures Valid() && page == 1 && search == "" && status == "all" && sorts == []
    {
      page := 1;
      search := "";
      status := "all";
      sorts := [];
    }

    function Rows(books: seq<Book>, engine: (seq<Book>, (Book, Book) -> int) -> seq<Book>): (r: seq<Book>)
      reads this
      requires Valid() && SortPermutes(engine)
      ensures |r| <= PageSize
      ensures |r| == |Pagination.PageItems(FilterBooks(books, search, status), page, PageSize)|
      ensures forall x :: x in r ==> x in FilterBooks(books, search, status)
    {
      Visible(books, search, status, sorts, page, engine)
    }

    /** `handleSort(key)`: the multi-key toggle; the list stays free of duplicates and `none` entries. */
    method HandleSort(key: BookKey)
      requires Valid()
      modifies this
      ensures Valid() && sorts == Toggle(old(sorts), key)
      ensures page == old(page) && search == old(search) && status == old(status)
    {
      ToggleKeepsWellFormed(sorts, key);
      sorts := Toggle(sorts, key);
    }

    /** A new search; the effect on `[search, status]` returns to the first page. */
    method SetSearch(s: string)
      requires Valid()
      modifies this
      ensures Valid() && search == s && page == 1 && status == old(status) && sorts == old(sorts)
    {
      search := s;
      page := 1;
    }

    /** A new status filter; the same effect returns to the first page. */
    method SetStatus(s: string)
      requires Valid()
      modifies this
      ensures Valid() && status == s && page == 1 && search == old(search) && sorts == old(sorts)
    {
      status := s;
      page := 1;
    }

    method PreviousPage()
      requires Valid()
      modifies this
      ensures Valid() && page == Pagination.PrevPage(old(page))
      ensures search == old(search) && status == old(status) && sorts == old(sorts)
    {
      page := Pagination.Max(1, page - 1);
    }

    /** The Next control, rendered only when there is more than one page. */
    method NextPage(books: seq<Book>)
      requires Valid() && Pagination.ShowControls(TotalPages(books, search, status))
      modifies this
      ensures Valid() && page == Pagination.NextPage(old(page), TotalPages(books, search, status))
      ensures search == old(search) && status == old(status) && sorts == old(sorts)
    {
      page := Pagination.Min(TotalPages(books, search, status), page + 1);
    }

    method GoToPage(books: seq<Book>, p: int)
      requires Valid() && 1 <= p <= TotalPages(books, search, status)
      modifies this
      ensures Valid() && page == p
      ensures search == old(search) && status == old(status) && sorts == old(sorts)
    {
      page := p;
    }
  }
}
