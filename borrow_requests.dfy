/**
 * The librarian's list of borrow requests: the status rank, the filter over search text,
 * request-date range and status, the comparator with its newest-first default, the page of
 * results, and which requests offer the approve and reject actions; the React state of the
 * page is the class `View`.
 */
module BorrowRequests {
  import opened Wrappers
  import opened Text
  import opened Seqs
  import opened ColumnSort
  import Pagination

  datatype BookRef = BookRef(title: string, author: string)
  datatype UserRef = UserRef(fullName: string, email: string)

  /** A borrow request as fetched: book and user are populated, the decision dates may be missing. */
  datatype BorrowRequest = BorrowRequest(
    book: BookRef,
    user: UserRef,
    status: string,
    requestDate: int,
    approvedDate: Option<int>,
    rejectedDate: Option<int>)

  /** `getStatusValue`: the rank a status sorts by. */
  function GetStatusValue(status: string): (v: int)
    ensures 1 <= v <= 4
    ensures (v == 1 <==> status == "pending") && (v == 2 <==> status == "approved") && (v == 3 <==> status == "rejected")
  {
    match status
    case "pending" => 1
    case "approved" => 2
    case "rejected" => 3
    case _ => 4
  }

  // ---------------------------------------------------------------------------
  // The filter

  /** The search box: a case-folded substring of the title, the author, the user's name or email. */
  predicate MatchesSearch(r: BorrowRequest, search: string) {
    var s := Lower(search);
    Includes(Lower(r.book.title), s) || Includes(Lower(r.book.author), s) ||
    Includes(Lower(r.user.fullName), s) || Includes(Lower(r.user.email), s)
  }

  predicate InDateRange(r: BorrowRequest, startDate: Option<int>, endDate: Option<int>) {
    (startDate.None? || r.requestDate >= startDate.value) && (endDate.None? || r.requestDate <= endDate.value)
  }

  predicate MatchesStatus(r: BorrowRequest, filter: string) {
    filter == "all" || r.status == filter
  }

  datatype Filters = Filters(searchTerm: string, startDate: Option<int>, endDate: Option<int>, statusFilter: string)

  /** What the page starts with and `resetFilters` restores: pending requests only. */
  const DefaultFilters: Filters := Filters("", None, None, "pending")

  predicate Passes(r: BorrowRequest, f: Filters) {
    MatchesSearch(r, f.searchTerm) && InDateRange(r, f.startDate, f.endDate) && MatchesStatus(r, f.statusFilter)
  }

  function FilterRequests(requests: seq<BorrowRequest>, f: Filters): (r: seq<BorrowRequest>)
    ensures forall i :: 0 <= i < |r| ==> r[i] in requests && Passes(r[i], f)
    ensures forall i :: 0 <= i < |requests| && Passes(requests[i], f) ==> requests[i] in r
  {
    Filter(requests, (x: BorrowRequest) => Passes(x, f))
  }

  lemma EmptySearchMatchesAll(r: BorrowRequest)
    ensures MatchesSearch(r, "")
  {
    IncludesEmpty(Lower(r.book.title));
  }

  /** Searching for a user's own email always finds their requests, whatever its case. */
  lemma OwnEmailMatches(r: BorrowRequest)
    ensures MatchesSearch(r, r.user.email)
  {
    IncludesSelf(Lower(r.user.email));
  }

  /** With the default filters the page lists exactly the pending requests, in fetched order. */
  lemma DefaultFiltersShowPending(requests: seq<BorrowRequest>)
    ensures FilterRequests(requests, DefaultFilters) == Filter(requests, (x: BorrowRequest) => x.status == "pending")
  {
    forall x: BorrowRequest ensures Passes(x, DefaultFilters) == (x.status == "pending") {
      EmptySearchMatchesAll(x);
    }
    FilterSamePredicate(requests, (x: BorrowRequest) => Passes(x, DefaultFilters),
                        (x: BorrowRequest) => x.status == "pending");
  }

  // ---------------------------------------------------------------------------
  // The comparator

  datatype Column = BookTitleCol | BookAuthorCol | UserNameCol | UserEmailCol
                  | StatusCol | RequestDateCol | ApprovedDateCol | RejectedDateCol

  /** The comparator passed to `sort`; with no sort the newest request comes first. */
  /** The columns compared as `(x || "")` texts. */
  predicate IsTextColumn(c: Column) {
    c == BookTitleCol || c == BookAuthorCol || c == UserNameCol || c == UserEmailCol
  }

  function CompareRequests(st: SortState<Column>, a: BorrowRequest, b: BorrowRequest): (r: int)
    ensures st.column.Some? && st.direction.Some? && IsTextColumn(st.column.value) ==> r == 1 || r == -1
    ensures st.column == Some(StatusCol) && st.direction.Some? ==> -3 <= r <= 3
  {
    if st.column.None? || st.direction.None? then b.requestDate - a.requestDate
    else
      var d := st.direction.value;
      match st.column.value
      case BookTitleCol => CompareTexts(StrOr(a.book.title, ""), StrOr(b.book.title, ""), d)
      case BookAuthorCol => CompareTexts(StrOr(a.book.author, ""), StrOr(b.book.author, ""), d)
      case UserNameCol => CompareTexts(StrOr(a.user.fullName, ""), StrOr(b.user.fullName, ""), d)
      case UserEmailCol => CompareTexts(StrOr(a.user.email, ""), StrOr(b.user.email, ""), d)
      case StatusCol => (GetStatusValue(a.status) - GetStatusValue(b.status)) * Sign(d)
      case RequestDateCol => (a.requestDate - b.requestDate) * Sign(d)
      case ApprovedDateCol => CompareOptionalDates(a.approvedDate, b.approvedDate, d)
      case RejectedDateCol => CompareOptionalDates(a.rejectedDate, b.rejectedDate, d)
  }

  /** Unsorted, the order is newest request first, and it is antisymmetric. */
  lemma DefaultOrderNewestFirst(st: SortState<Column>, a: BorrowRequest, b: BorrowRequest)
    requires st.column.None? || st.direction.None?
    ensures CompareRequests(st, a, b) < 0 <==> a.requestDate > b.requestDate
    ensures CompareRequests(st, a, b) == -CompareRequests(st, b, a)
    ensures CompareRequests(st, a, b) == CompareRequests(SortState(Some(RequestDateCol), Some(Desc)), a, b)
  {
  }

  /** Sorting by status ascending puts pending before approved before rejected before anything else. */
  lemma StatusOrder(a: BorrowRequest, b: BorrowRequest, d: Dir)
    ensures var st := SortState(Some(StatusCol), Some(d));
            CompareRequests(st, a, b) == (GetStatusValue(a.status) - GetStatusValue(b.status)) * Sign(d) &&
            CompareRequests(st, a, b) == -CompareRequests(st, b, a)
    ensures a.status == "pending" && b.status != "pending" ==>
              CompareRequests(SortState(Some(StatusCol), Some(Asc)), a, b) < 0
    ensures a.status == "approved" && b.status == "rejected" ==>
              CompareRequests(SortState(Some(StatusCol), Some(Asc)), a, b) < 0
    ensures GetStatusValue(a.status) == 4 && GetStatusValue(b.status) < 4 ==>
              CompareRequests(SortState(Some(StatusCol), Some(Asc)), a, b) > 0
  {
  }

  /** Missing decision dates sort last ascending and first descending; two missing dates tie. */
  lemma MissingDecisionDates(a: BorrowRequest, b: BorrowRequest, d: Dir)
    ensures a.approvedDate.None? && b.approvedDate.Some? ==>
              CompareRequests(SortState(Some(ApprovedDateCol), Some(Asc)), a, b) > 0 &&
              CompareRequests(SortState(Some(ApprovedDateCol), Some(Desc)), a, b) < 0
    ensures a.rejectedDate.None? && b.rejectedDate.None? ==>
              CompareRequests(SortState(Some(RejectedDateCol), Some(d)), a, b) == 0
    ensures a.approvedDate.None? && b.approvedDate.None? ==>
              CompareRequests(SortState(Some(ApprovedDateCol), Some(d)), a, b) == 0
  {
    MissingDateOrder(a.approvedDate, b.approvedDate, d);
    MissingDateOrder(a.rejectedDate, b.rejectedDate, d);
  }

  /** Equal titles never tie, as in the record list. */
  lemma TitleColumnNeverTies(a: BorrowRequest, b: BorrowRequest, d: Dir)
    requires a.book.title == b.book.title
    ensures CompareRequests(SortState(Some(BookTitleCol), Some(d)), a, b) == -Sign(d)
    ensures CompareRequests(SortState(Some(BookTitleCol), Some(d)), b, a) == -Sign(d)
  {
    EqualTextsDoNotTie(StrOr(a.book.title, ""), d);
  }

  /** The approve and reject actions are offered only while a request is pending. */
  predicate OffersDecision(r: BorrowRequest) {
    r.status == "pending"
  }

  lemma DecisionOnlyWhenRankOne(r: BorrowRequest)
    ensures OffersDecision(r) <==> GetStatusValue(r.status) == 1
  {
  }

  // ---------------------------------------------------------------------------
  // The page state

  const ItemsPerPageOptions: seq<int> := [5, 10, 15, 20, 50]

  class View {
    var filters: Filters
    var currentPage: int
    var itemsPerPage: int
    var sort: SortState<Column>

    ghost predicate Valid()
      reads this
    {
      currentPage >= 1 && itemsPerPage in ItemsPerPageOptions && WellFormed(sort)
    }

    constructor ()
      ensures Valid()
      ensures filters == DefaultFilters && currentPage == 1 && itemsPerPage == 10 && sort == Unsorted()
    {
      filters := DefaultFilters;
      currentPage := 1;
      itemsPerPage := 10;
      sort := Unsorted();
    }

    /** The rows on screen: the filtered requests, sorted by the engine with the comparator, then sliced. */
    function CurrentItems(requests: seq<BorrowRequest>,
                          engine: (seq<BorrowRequest>, (BorrowRequest, BorrowRequest) -> int) -> seq<BorrowRequest>)
      : (r: seq<BorrowRequest>)
      reads this
      requires Valid() && SortPermutes(engine)
      ensures |r| <= itemsPerPage
      ensures |r| == |Pagination.PageItems(FilterRequests(requests, filters), currentPage, itemsPerPage)|
      ensures forall x :: x in r ==> x in FilterRequests(requests, filters)
    {
      var st := sort;
      var cmp := (a: BorrowRequest, b: BorrowRequest) => CompareRequests(st, a, b);
      Pagination.SortedPageOf(FilterRequests(requests, filters), cmp, engine, currentPage, itemsPerPage);
      Pagination.PageItems(engine(FilterRequests(requests, filters), cmp), currentPage, itemsPerPage)
    }

    /** `handleSort(column)`: the single-column cycle; nothing else changes. */
    method HandleSort(column: Column)
      requires Valid()
      modifies this
      ensures Valid() && sort == Toggle(old(sort), column)
      ensures filters == old(filters) && currentPage == old(currentPage) && itemsPerPage == old(itemsPerPage)
    {
      ToggleKeepsWellFormed(sort, column);
      if sort.column == Some(column) {
        var next := match sort.direction
          case Some(Asc) => Some(Desc)
          case Some(Desc) => None
          case None => Some(Asc);
        if sort.direction == Some(Desc) {
          sort := SortState(None, next);
        } else {
          sort := sort.(direction := next);
        }
      } else {
        sort := SortState(Some(column), Some(Asc));
      }
    }

    /** Changing the search, the dates or the status filter; the page is kept. */
    method SetFilters(f: Filters)
      requires Valid()
      modifies this
      ensures Valid() && filters == f
      ensures currentPage == old(currentPage) && itemsPerPage == old(itemsPerPage) && sort == old(sort)
    {
      filters := f;
    }

    method HandlePageChange(page: int)
      requires Valid() && page >= 1
      modifies this
      ensures Valid() && currentPage == page
      ensures filters == old(filters) && itemsPerPage == old(itemsPerPage) && sort == old(sort)
    {
      currentPage := page;
    }

    method HandleItemsPerPageChange(n: int)
      requires Valid() && n in ItemsPerPageOptions
      modifies this
      ensures Valid() && itemsPerPage == n && currentPage == 1
      ensures filters == old(filters) && sort == old(sort)
    {
      itemsPerPage := n;
      currentPage := 1;
    }

    /** `resetFilters`: pending only, no search or dates, no sort, first page. */
    method ResetFilters()
      requires Valid()
      modifies this
      ensures Valid() && filters == DefaultFilters && sort == Unsorted() && currentPage == 1
      ensures itemsPerPage == old(itemsPerPage)
    {
      filters := DefaultFilters;
      sort := Unsorted();
      currentPage := 1;
    }
  }
}
