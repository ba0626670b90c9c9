/**
 * The librarian's list of borrow records: the overdue status of a record, the filter over search
 * text, borrow-date range, return status and overdue status, the single-column comparator, and
 * the page of results shown; the React state of the page is the class `View`.
 *
 * Dates are timestamps in milliseconds; "now" is a parameter.
 */
module BorrowRecords {
  import opened Wrappers
  import opened Text
  import opened Seqs
  import opened ColumnSort
  import Pagination

  datatype BookRef = BookRef(title: Option<string>, author: Option<string>)
  datatype UserRef = UserRef(fullName: Option<string>, email: Option<string>)

  /** A borrow record as fetched: the populated book and user may be missing, as may the return date. */
  datatype BorrowRecord = BorrowRecord(
    book: Option<BookRef>,
    user: Option<UserRef>,
    borrowDate: int,
    dueDate: int,
    returnDate: Option<int>,
    isReturned: bool)

  // ---------------------------------------------------------------------------
  // Overdue status

  datatype OverdueStatus = OverdueStatus(isOverdue: bool, text: string, statusClass: string)

  /** `getOverdueStatus`. */
  function GetOverdueStatus(r: BorrowRecord, nowMs: int): (s: OverdueStatus)
    ensures !r.isReturned ==> (s.isOverdue <==> nowMs > r.dueDate)
    ensures r.isReturned && r.returnDate.Some? ==> (s.isOverdue <==> r.returnDate.value > r.dueDate)
    ensures r.isReturned && r.returnDate.None? ==> !s.isOverdue
    ensures s.text == (if s.isOverdue then "Quá hạn" else "Đúng hạn")
    ensures s.statusClass == (if s.isOverdue then "text-red-500" else "text-green-500")
  {
    var isOverdue :=
      if !r.isReturned then nowMs > r.dueDate
      else if r.returnDate.Some? then r.returnDate.value > r.dueDate
      else false;
    OverdueStatus(isOverdue, if isOverdue then "Quá hạn" else "Đúng hạn",
                  if isOverdue then "text-red-500" else "text-green-500")
  }

  /** A returned record's status no longer depends on the clock. */
  lemma ReturnedStatusIgnoresClock(r: BorrowRecord, now1: int, now2: int)
    requires r.isReturned
    ensures GetOverdueStatus(r, now1) == GetOverdueStatus(r, now2)
  {
  }

  // ---------------------------------------------------------------------------
  // The filter

  function BookTitle(r: BorrowRecord): Option<string> {
    if r.book.Some? then r.book.value.title else None
  }

  function BookAuthor(r: BorrowRecord): Option<string> {
    if r.book.Some? then r.book.value.author else None
  }

  function UserName(r: BorrowRecord): Option<string> {
    if r.user.Some? then r.user.value.fullName else None
  }

  function UserEmail(r: BorrowRecord): Option<string> {
    if r.user.Some? then r.user.value.email else None
  }

  /** `x?.toLowerCase() || ""`: a missing field searches as the empty string. */
  function SearchText(o: Option<string>): (t: string)
    ensures o.None? ==> t == ""
    ensures o.Some? ==> t == Lower(o.value)
  {
    if o.Some? then StrOr(Lower(o.value), "") else ""
  }

  /** The search box: a case-folded substring of the title, the author, the user's name or email. */
  predicate MatchesSearch(r: BorrowRecord, search: string) {
    var s := Lower(search);
    Includes(SearchText(BookTitle(r)), s) || Includes(SearchText(BookAuthor(r)), s) ||
    Includes(SearchText(UserName(r)), s) || Includes(SearchText(UserEmail(r)), s)
  }

  /** The date pickers: both bounds inclusive, a missing bound unconstrained. */
  predicate InDateRange(r: BorrowRecord, startDate: Option<int>, endDate: Option<int>) {
    (startDate.None? || r.borrowDate >= startDate.value) && (endDate.None? || r.borrowDate <= endDate.value)
  }

  predicate MatchesReturnStatus(r: BorrowRecord, filter: string) {
    filter == "all" || (filter == "returned" && r.isReturned) || (filter == "not_returned" && !r.isReturned)
  }

  predicate MatchesOverdueStatus(r: BorrowRecord, filter: string, nowMs: int) {
    var overdue := GetOverdueStatus(r, nowMs).isOverdue;
    filter == "all" || (filter == "overdue" && overdue) || (filter == "on_time" && !overdue)
  }

  datatype Filters = Filters(
    searchTerm: string,
    startDate: Option<int>,
    endDate: Option<int>,
    isReturnedFilter: string,
    overdueFilter: string)

  /** What the page starts with and `resetFilters` restores. */
  const DefaultFilters: Filters := Filters("", None, None, "not_returned", "all")

  predicate Passes(r: BorrowRecord, f: Filters, nowMs: int) {
    MatchesSearch(r, f.searchTerm) && InDateRange(r, f.startDate, f.endDate) &&
    MatchesReturnStatus(r, f.isReturnedFilter) && MatchesOverdueStatus(r, f.overdueFilter, nowMs)
  }

  /** `filteredRecords`: the records passing all four tests, in fetched order. */
  function FilterRecords(records: seq<BorrowRecord>, f: Filters, nowMs: int): (r: seq<BorrowRecord>)
    ensures forall i :: 0 <= i < |r| ==> r[i] in records && Passes(r[i], f, nowMs)
    ensures forall i :: 0 <= i < |records| && Passes(records[i], f, nowMs) ==> records[i] in r
  {
    Filter(records, (x: BorrowRecord) => Passes(x, f, nowMs))
  }

  /** An empty search box matches every record. */
  lemma EmptySearchMatchesAll(r: BorrowRecord)
    ensures MatchesSearch(r, "")
  {
    IncludesEmpty(SearchText(BookTitle(r)));
  }

  /** A record with neither book nor user matches only the empty search. */
  lemma UnpopulatedRecordSearch(r: BorrowRecord, search: string)
    requires r.book.None? && r.user.None?
    ensures MatchesSearch(r, search) <==> search == ""
  {
    if search != "" {
      assert Lower(search) != "";
    } else {
      EmptySearchMatchesAll(r);
    }
  }

  /** Status filter values other than the offered ones match nothing. */
  lemma UnknownStatusFiltersMatchNothing(r: BorrowRecord, returned: string, overdue: string, nowMs: int)
    ensures returned != "all" && returned != "returned" && returned != "not_returned" ==> !MatchesReturnStatus(r, returned)
    ensures overdue != "all" && overdue != "overdue" && overdue != "on_time" ==> !MatchesOverdueStatus(r, overdue, nowMs)
  {
  }

  /** With the default filters the page lists exactly the records not yet returned, in fetched order. */
  lemma DefaultFiltersShowUnreturned(records: seq<BorrowRecord>, nowMs: int)
    ensures FilterRecords(records, DefaultFilters, nowMs) == Filter(records, (x: BorrowRecord) => !x.isReturned)
  {
    forall x: BorrowRecord ensures Passes(x, DefaultFilters, nowMs) == !x.isReturned {
      EmptySearchMatchesAll(x);
    }
    FilterSamePredicate(records, (x: BorrowRecord) => Passes(x, DefaultFilters, nowMs), (x: BorrowRecord) => !x.isReturned);
  }

  /** Each overdue filter value splits the records the way its name says. */
  lemma OverdueFiltersPartition(r: BorrowRecord, nowMs: int)
    ensures MatchesOverdueStatus(r, "overdue", nowMs) != MatchesOverdueStatus(r, "on_time", nowMs)
    ensures MatchesOverdueStatus(r, "all", nowMs)
  {
  }

  // ---------------------------------------------------------------------------
  // The comparator

  datatype Column = BookTitleCol | BookAuthorCol | UserNameCol | UserEmailCol
                  | BorrowDateCol | DueDateCol | ReturnDateCol | IsReturnedCol | IsOverdueCol

  predicate IsStringColumn(c: Column) {
    c == BookTitleCol || c == BookAuthorCol || c == UserNameCol || c == UserEmailCol
  }

  /** `(x || "")` over the raw, not case-folded, field of a string column. */
  function SortText(c: Column, r: BorrowRecord): string
    requires IsStringColumn(c)
  {
    match c
    case BookTitleCol => OrElse(BookTitle(r), "")
    case BookAuthorCol => OrElse(BookAuthor(r), "")
    case UserNameCol => OrElse(UserName(r), "")
    case UserEmailCol => OrElse(UserEmail(r), "")
  }

  function Bit(b: bool): int {
    if b then 1 else 0
  }

  /** The comparator passed to `sort`. */
  function CompareRecords(st: SortState<Column>, nowMs: int, a: BorrowRecord, b: BorrowRecord): (r: int)
    ensures st.column.Some? && st.direction.Some? && IsStringColumn(st.column.value) ==> r == 1 || r == -1
    ensures st.column == Some(IsReturnedCol) && st.direction.Some? ==> -1 <= r <= 1
    ensures st.column == Some(IsOverdueCol) && st.direction.Some? ==> -1 <= r <= 1
  {
    if st.column.None? || st.direction.None? then 0
    else
      var dir := Sign(st.direction.value);
      match st.column.value
      case BorrowDateCol => (a.borrowDate - b.borrowDate) * dir
      case DueDateCol => (a.dueDate - b.dueDate) * dir
      case ReturnDateCol => CompareOptionalDates(a.returnDate, b.returnDate, st.direction.value)
      case IsReturnedCol => (Bit(a.isReturned) - Bit(b.isReturned)) * dir
      case IsOverdueCol =>
        (Bit(GetOverdueStatus(a, nowMs).isOverdue) - Bit(GetOverdueStatus(b, nowMs).isOverdue)) * dir
      case _ => CompareTexts(SortText(st.column.value, a), SortText(st.column.value, b), st.direction.value)
  }

  /** With no column or no direction every pair ties, so the filtered order is kept. */
  lemma UnsortedKeepsOrder(st: SortState<Column>, nowMs: int, a: BorrowRecord, b: BorrowRecord)
    requires st.column.None? || st.direction.None?
    ensures CompareRecords(st, nowMs, a, b) == 0
  {
  }

  /**
   * A string column never reports a tie: two records with equal text compare as -direction both
   * ways round, so the comparator is not antisymmetric and the engine's order is unspecified.
   */
  lemma StringColumnNeverTies(c: Column, d: Dir, nowMs: int, a: BorrowRecord, b: BorrowRecord)
    requires IsStringColumn(c) && SortText(c, a) == SortText(c, b)
    ensures CompareRecords(SortState(Some(c), Some(d)), nowMs, a, b) == -Sign(d)
    ensures CompareRecords(SortState(Some(c), Some(d)), nowMs, b, a) == -Sign(d)
  {
    EqualTextsDoNotTie(SortText(c, a), d);
  }

  /** A missing return date goes after the dated records when ascending and before them when descending. */
  lemma MissingReturnDateOrder(d: Dir, nowMs: int, a: BorrowRecord, b: BorrowRecord)
    requires a.returnDate.None? && b.returnDate.Some?
    ensures var st := SortState(Some(ReturnDateCol), Some(d));
            (d == Asc ==> CompareRecords(st, nowMs, a, b) > 0 && CompareRecords(st, nowMs, b, a) < 0) &&
            (d == Desc ==> CompareRecords(st, nowMs, a, b) < 0 && CompareRecords(st, nowMs, b, a) > 0)
  {
    MissingDateOrder(a.returnDate, b.returnDate, d);
  }

  /** Every column other than the string columns compares antisymmetrically, and descending reverses ascending. */
  lemma NonStringColumnsAntisymmetric(c: Column, nowMs: int, a: BorrowRecord, b: BorrowRecord)
    requires !IsStringColumn(c)
    ensures CompareRecords(SortState(Some(c), Some(Asc)), nowMs, a, b) ==
            -CompareRecords(SortState(Some(c), Some(Asc)), nowMs, b, a)
    ensures CompareRecords(SortState(Some(c), Some(Desc)), nowMs, a, b) ==
            -CompareRecords(SortState(Some(c), Some(Asc)), nowMs, a, b)
  {
    MissingDateOrder(a.returnDate, b.returnDate, Asc);
  }

  /** The boolean columns compare as 0/1: returned (or overdue) records go last when ascending. */
  lemma BooleanColumnsAsBits(c: Column, nowMs: int, a: BorrowRecord, b: BorrowRecord)
    requires c == IsReturnedCol
    ensures var v := CompareRecords(SortState(Some(c), Some(Asc)), nowMs, a, b);
            -1 <= v <= 1 && (v == 0 <==> a.isReturned == b.isReturned) && (v == 1 <==> a.isReturned && !b.isReturned)
  {
  }

  // ---------------------------------------------------------------------------
  // The page state

  const ItemsPerPageOptions: seq<int> := [5, 10, 15, 20, 50]

  class View {
    var filters: Filters
    var currentPage: int
    var itemsPerPage: int
    var sort: SortState<Column>

    ghost predicate Valid()
      reads this
    {
      currentPage >= 1 && itemsPerPage in ItemsPerPageOptions && WellFormed(sort)
    }

    constructor ()
      ensures Valid()
      ensures filters == DefaultFilters && currentPage == 1 && itemsPerPage == 10 && sort == Unsorted()
    {
      filters := DefaultFilters;
      currentPage := 1;
      itemsPerPage := 10;
      sort := Unsorted();
    }

    /** The rows on screen: the filtered records, sorted by the engine with the comparator, then sliced. */
    function CurrentItems(records: seq<BorrowRecord>, nowMs: int,
                          engine: (seq<BorrowRecord>, (BorrowRecord, BorrowRecord) -> int) -> seq<BorrowRecord>)
      : (r: seq<BorrowRecord>)
      reads this
      requires Valid() && SortPermutes(engine)
      ensures |r| <= itemsPerPage
      ensures |r| == |Pagination.PageItems(FilterRecords(records, filters, nowMs), currentPage, itemsPerPage)|
      ensures forall x :: x in r ==> x in FilterRecords(records, filters, nowMs)
    {
      var st := sort;
      var cmp := (a: BorrowRecord, b: BorrowRecord) => CompareRecords(st, nowMs, a, b);
      Pagination.SortedPageOf(FilterRecords(records, filters, nowMs), cmp, engine, currentPage, itemsPerPage);
      Pagination.PageItems(engine(FilterRecords(records, filters, nowMs), cmp), currentPage, itemsPerPage)
    }

    /**
     * Unsorted, a stable engine keeps the fetched order, so with the initial filters the page is
     * exactly the page of the unreturned records in the order the server sent them.
     */
    lemma DefaultPageShowsUnreturned(records: seq<BorrowRecord>, nowMs: int,
                                     engine: (seq<BorrowRecord>, (BorrowRecord, BorrowRecord) -> int) -> seq<BorrowRecord>)
      requires Valid() && SortPermutes(engine) && StableOnTies(engine)
      requires filters == DefaultFilters && (sort.column.None? || sort.direction.None?)
      ensures CurrentItems(records, nowMs, engine) ==
              Pagination.PageItems(Filter(records, (x: BorrowRecord) => !x.isReturned), currentPage, itemsPerPage)
    {
      var st := sort;
      var cmp := (a: BorrowRecord, b: BorrowRecord) => CompareRecords(st, nowMs, a, b);
      forall a: BorrowRecord, b: BorrowRecord ensures cmp(a, b) == 0 {
        UnsortedKeepsOrder(st, nowMs, a, b);
      }
      DefaultFiltersShowUnreturned(records, nowMs);
      assert engine(FilterRecords(records, filters, nowMs), cmp) == FilterRecords(records, filters, nowMs);
    }

    /** `handleSort(column)`: the single-column cycle; nothing else changes, not even the page. */
    method HandleSort(column: Column)
      requires Valid()
      modifies this
      ensures Valid() && sort == Toggle(old(sort), column)
      ensures filters == old(filters) && currentPage == old(currentPage) && itemsPerPage == old(itemsPerPage)
    {
      ToggleKeepsWellFormed(sort, column);
      if sort.column == Some(column) {
        var next := match sort.direction
          case Some(Asc) => Some(Desc)
          case Some(Desc) => None
          case None => Some(Asc);
        if sort.direction == Some(Desc) {
          sort := SortState(None, next);
        } else {
          sort := sort.(direction := next);
        }
      } else {
        sort := SortState(Some(column), Some(Asc));
      }
    }

    /** Typing in the search box; the page is not reset, so it may point past the last page. */
    method SetSearchTerm(term: string)
      requires Valid()
      modifies this
      ensures Valid() && filters == old(filters).(searchTerm := term)
      ensures currentPage == old(currentPage) && itemsPerPage == old(itemsPerPage) && sort == old(sort)
    {
      filters := filters.(searchTerm := term);
    }

    /** Picking a start date, an end date or a status filter; the page is kept. */
    method SetFilters(startDate: Option<int>, endDate: Option<int>, returned: string, overdue: string)
      requires Valid()
      modifies this
      ensures Valid() && filters == Filters(old(filters).searchTerm, startDate, endDate, returned, overdue)
      ensures currentPage == old(currentPage) && itemsPerPage == old(itemsPerPage) && sort == old(sort)
    {
      filters := Filters(filters.searchTerm, startDate, endDate, returned, overdue);
    }

    /** `handlePageChange(page)`, from the page links or the guarded Previous/Next controls. */
    method HandlePageChange(page: int)
      requires Valid() && page >= 1
      modifies this
      ensures Valid() && currentPage == page
      ensures filters == old(filters) && itemsPerPage == old(itemsPerPage) && sort == old(sort)
    {
      currentPage := page;
    }

    /** `handleItemsPerPageChange`: the new page size, and back to the first page. */
    method HandleItemsPerPageChange(n: int)
      requires Valid() && n in ItemsPerPageOptions
      modifies this
      ensures Valid() && itemsPerPage == n && currentPage == 1
      ensures filters == old(filters) && sort == old(sort)
    {
      itemsPerPage := n;
      currentPage := 1;
    }

    /** `resetFilters`: default filters, no sort, first page; the page size is kept. */
    method ResetFilters()
      requires Valid()
      modifies this
      ensures Valid() && filters == DefaultFilters && sort == Unsorted() && currentPage == 1
      ensures itemsPerPage == old(itemsPerPage)
    {
      filters := DefaultFilters;
      sort := Unsorted();
      currentPage := 1;
    }
  }
}
