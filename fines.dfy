/**
 * The librarian's fine list: a search over the member's email and the book title, a paid-status
 * filter, the multi-key sort (two of whose column keys are not fields of a fine), ten rows per
 * page, and the pay action on unpaid fines. `FinePage` holds the page's React state.
 */
module Fines {
  import opened Wrappers
  import opened Text
  import opened Seqs
  import opened MultiSort
  import Pagination

  datatype FineUser = FineUser(email: Option<string>)
  datatype FineBook = FineBook(title: Option<string>)
  datatype FineRecord = FineRecord(book: Option<FineBook>)

  /** A fine as fetched; the populated user, borrow record and book may each be missing. */
  datatype Fine = Fine(
    id: string,
    user: Option<FineUser>,
    borrowRecord: Option<FineRecord>,
    book: Option<FineBook>,
    amount: int,
    reason: string,
    isPaid: bool,
    issuedDate: string)

  datatype FineKey = UserNameKey | BookTitleKey | AmountKey | ReasonKey | IsPaidKey | IssuedDateKey

  const PageSize: nat := 10

  // ---------------------------------------------------------------------------
  // Optional paths

  /** `fine.user_id?.email`. */
  function UserEmail(f: Fine): Option<string> {
    if f.user.Some? then f.user.value.email else None
  }

  /** `fine.borrow_record_id?.book_id?.title`. */
  function RecordTitle(f: Fine): Option<string> {
    if f.borrowRecord.Some? && f.borrowRecord.value.book.Some? then f.borrowRecord.value.book.value.title else None
  }

  /** `fine.book_id?.title`. */
  function DirectTitle(f: Fine): Option<string> {
    if f.book.Some? then f.book.value.title else None
  }

  /** `fine.borrow_record_id?.book_id?.title || fine.book_id?.title`. */
  function SearchedTitle(f: Fine): (r: Option<string>)
    ensures Truthy(RecordTitle(f)) ==> r == RecordTitle(f)
    ensures !Truthy(RecordTitle(f)) ==> r == DirectTitle(f)
  {
    if Truthy(RecordTitle(f)) then RecordTitle(f) else DirectTitle(f)
  }

  /** `text?.toLowerCase().includes(search.toLowerCase())`, where a missing text never matches. */
  predicate OptIncludes(text: Option<string>, search: string) {
    text.Some? && Includes(Lower(text.value), Lower(search))
  }

  // ---------------------------------------------------------------------------
  // The filter

  predicate MatchesSearch(f: Fine, search: string) {
    OptIncludes(UserEmail(f), search) || OptIncludes(SearchedTitle(f), search)
  }

  /** `"all"`: every fine; `"false"`: unpaid; `"true"`: paid; anything else: none. */
  predicate MatchesStatus(f: Fine, status: string) {
    if status == "all" then true
    else if status == "false" then !f.isPaid
    else if status == "true" then f.isPaid
    else false
  }

  predicate Passes(f: Fine, search: string, status: string) {
    MatchesSearch(f, search) && MatchesStatus(f, status)
  }

  /** `filtered`: the fines passing both predicates, in fetched order. */
  function FilterFines(fines: seq<Fine>, search: string, status: string): (r: seq<Fine>)
    ensures forall i :: 0 <= i < |r| ==> r[i] in fines && Passes(r[i], search, status)
    ensures forall i :: 0 <= i < |fines| && Passes(fines[i], search, status) ==> fines[i] in r
  {
    Filter(fines, (f: Fine) => Passes(f, search, status))
  }

  /** The status filter's values behave as named. */
  lemma StatusFilterValues(f: Fine, status: string)
    ensures MatchesStatus(f, "all")
    ensures MatchesStatus(f, "false") <==> !f.isPaid
    ensures MatchesStatus(f, "true") <==> f.isPaid
    ensures status != "all" && status != "false" && status != "true" ==> !MatchesStatus(f, status)
  {
  }

  /** Any other status value empties the list. */
  lemma UnknownStatusShowsNothing(fines: seq<Fine>, search: string, status: string)
    requires status != "all" && status != "false" && status != "true"
    ensures FilterFines(fines, search, status) == []
  {
    FilterKeepsNone(fines, (f: Fine) => Passes(f, search, status));
  }

  /** The title of the borrow record is searched when it is non-empty; otherwise the fine's own book title. */
  lemma RecordTitleTakesPrecedence(f: Fine, search: string)
    requires Truthy(RecordTitle(f))
    ensures MatchesSearch(f, search) <==> OptIncludes(UserEmail(f), search) || OptIncludes(RecordTitle(f), search)
  {
  }

  /** A fine with neither an email nor any title is found by no search, not even the empty one. */
  lemma NothingToSearchNeverMatches(f: Fine, search: string)
    requires UserEmail(f).None? && RecordTitle(f).None? && DirectTitle(f).None?
    ensures !MatchesSearch(f, search)
  {
  }

  /** The pay action is rendered only for an unpaid fine. */
  predicate OffersPayment(f: Fine) {
    !f.isPaid
  }

  /** The "unpaid" filter lists exactly the fines that offer the pay action. */
  lemma UnpaidFilterListsPayable(fines: seq<Fine>, search: string)
    ensures forall i :: 0 <= i < |FilterFines(fines, search, "false")| ==> OffersPayment(FilterFines(fines, search, "false")[i])
    ensures forall i :: 0 <= i < |fines| && MatchesSearch(fines[i], search) && OffersPayment(fines[i]) ==>
              fines[i] in FilterFines(fines, search, "false")
  {
  }

  // ---------------------------------------------------------------------------
  // The comparator

  /**
   * `fine[key]`: the `user_name` and `book_title` columns name no field of a fine, so both
   * sides read `undefined`.
   */
  function Field(f: Fine, k: FineKey): Value {
    match k
    case UserNameKey => Undefined
    case BookTitleKey => Undefined
    case AmountKey => Num(f.amount)
    case ReasonKey => Str(f.reason)
    case IsPaidKey => Bool(f.isPaid)
    case IssuedDateKey => Str(f.issuedDate)
  }

  /** The keys that are fields of a fine. */
  predicate IsFieldKey(e: SortEntry<FineKey>) {
    e.key != UserNameKey && e.key != BookTitleKey
  }

  /** Sorting by member name or book title has no effect: the comparison is that of the list without those entries. */
  lemma NameAndTitleColumnsNeverDecide(sorts: seq<SortEntry<FineKey>>, a: Fine, b: Fine)
    ensures Compare(Filter(sorts, IsFieldKey), Field, a, b) == Compare(sorts, Field, a, b)
  {
    DroppingTiedEntries(sorts, Field, a, b, IsFieldKey);
  }

  /** A list of only those two columns leaves every pair tied. */
  lemma NameAndTitleOnlyTie(sorts: seq<SortEntry<FineKey>>, a: Fine, b: Fine)
    requires forall i :: 0 <= i < |sorts| ==> !IsFieldKey(sorts[i])
    ensures Compare(sorts, Field, a, b) == 0
  {
    CompareZeroIffAllTie(sorts, Field, a, b);
  }

  /** Sorting by status ascending puts unpaid fines first. */
  lemma UnpaidSortsFirst(a: Fine, b: Fine)
    requires !a.isPaid && b.isPaid
    ensures Compare([SortEntry(IsPaidKey, Asc)], Field, a, b) == -1
    ensures Compare([SortEntry(IsPaidKey, Desc)], Field, a, b) == 1
  {
  }

  // ---------------------------------------------------------------------------
  // The page

  function TotalPages(fines: seq<Fine>, search: string, status: string): nat {
    Pagination.PageCount(|FilterFines(fines, search, status)|, PageSize)
  }

  /** `paginated`: filtered, sorted when a sort is active, sliced ten to a page. */
  function Visible(fines: seq<Fine>, search: string, status: string, sorts: seq<SortEntry<FineKey>>, page: int,
                   engine: (seq<Fine>, (Fine, Fine) -> int) -> seq<Fine>): (r: seq<Fine>)
    requires page >= 1 && SortPermutes(engine)
    ensures |r| <= PageSize
    ensures |r| == |Pagination.PageItems(FilterFines(fines, search, status), page, PageSize)|
    ensures forall x :: x in r ==> x in FilterFines(fines, search, status)
    ensures sorts == [] ==> r == Pagination.PageItems(FilterFines(fines, search, status), page, PageSize)
  {
    var sorted := SortedView(FilterFines(fines, search, status), sorts, Field, engine);
    Pagination.PageItemsWindow(sorted, page, PageSize);
    SortedPage(FilterFines(fines, search, status), sorts, Field, engine, page, PageSize);
    Pagination.PageItems(sorted, page, PageSize)
  }

  /** Whatever the sort, every match is shown on one of the pages the controls offer. */
  lemma EveryMatchShown(fines: seq<Fine>, search: string, status: string, sorts: seq<SortEntry<FineKey>>,
                        engine: (seq<Fine>, (Fine, Fine) -> int) -> seq<Fine>, x: Fine)
    requires SortPermutes(engine) && x in FilterFines(fines, search, status)
    ensures exists p :: 1 <= p <= TotalPages(fines, search, status) &&
                        x in Visible(fines, search, status, sorts, p, engine)
  {
    SortedPagesCover(FilterFines(fines, search, status), sorts, Field, engine, PageSize, x);
    var p :| 1 <= p <= TotalPages(fines, search, status) &&
             x in Pagination.PageItems(SortedView(FilterFines(fines, search, status), sorts, Field, engine), p, PageSize);
    assert Visible(fines, search, status, sorts, p, engine) == Pagination.PageItems(SortedView(FilterFines(fines, search, status), sorts, Field, engine), p, PageSize);
  }

  class FinePage {
    var page: int
    var search: string
    var status: string
    var sorts: seq<SortEntry<FineKey>>

    ghost predicate Valid()
      reads this
    {
      page >= 1 && WellFormed(sorts)
    }

    constructor ()
      ensures Valid() && page == 1 && search == "" && status == "all" && sorts == []
    {
      page := 1;
      search := "";
      status := "all";
      sorts := [];
    }

    function Rows(fines: seq<Fine>, engine: (seq<Fine>, (Fine, Fine) -> int) -> seq<Fine>): (r: seq<Fine>)
      reads this
      requires Valid() && SortPermutes(engine)
      ensures |r| <= PageSize
      ensures |r| == |Pagination.PageItems(FilterFines(fines, search, status), page, PageSize)|
      ensures forall x :: x in r ==> x in FilterFines(fines, search, status)
    {
      Visible(fines, search, status, sorts, page, engine)
    }

    /** `handleSort(key)`: the multi-key toggle; the list stays free of duplicates and `none` entries. */
    method HandleSort(key: FineKey)
      requires Valid()
      modifies this
      ensures Valid() && sorts == Toggle(old(sorts), key)
      ensures page == old(page) && search == old(search) && status == old(status)
    {
      ToggleKeepsWellFormed(sorts, key);
      sorts := Toggle(sorts, key);
    }

    /** A new search; the effect on `[search, status]` returns to the first page. */
    method SetSearch(s: string)
      requires Valid()
      modifies this
      ensures Valid() && search == s && page == 1 && status == old(status) && sorts == old(sorts)
    {
      search := s;
      page := 1;
    }

    /** A new status filter; the same effect returns to the first page. */
    method SetStatus(s: string)
      requires Valid()
      modifies this
      ensures Valid() && status == s && page == 1 && search == old(search) && sorts == old(sorts)
    {
      status := s;
      page := 1;
    }

    method PreviousPage()
      requires Valid()
      modifies this
      ensures Valid() && page == Pagination.PrevPage(old(page))
      ensures search == old(search) && status == old(status) && sorts == old(sorts)
    {
      page := Pagination.Max(1, page - 1);
    }

    /** The Next control, rendered only when there is more than one page. */
    method NextPage(fines: seq<Fine>)
      requires Valid() && Pagination.ShowControls(TotalPages(fines, search, status))
      modifies this
      ensures Valid() && page == Pagination.NextPage(old(page), TotalPages(fines, search, status))
      ensures search == old(search) && status == old(status) && sorts == old(sorts)
    {
      page := Pagination.Min(TotalPages(fines, search, status), page + 1);
    }

    method GoToPage(fines: seq<Fine>, p: int)
      requires Valid() && 1 <= p <= TotalPages(fines, search, status)
      modifies this
      ensures Valid() && page == p
      ensures search == old(search) && status == old(status) && sorts == old(sorts)
    {
      page := p;
    }
  }
}
