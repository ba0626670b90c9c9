/**
 * A member's own fines: a search over the borrow record's book title only, the same paid-status
 * filter as the librarian's list, no sorting, and ten rows per page. `MemberFinePage` holds the
 * page's React state.
 */
module FineMember {
  import opened Wrappers
  import opened Text
  import opened Seqs
  import Fines
  import Pagination

  const PageSize: nat := 10

  /** `fine.borrow_record_id?.book_id?.title?.toLowerCase().includes(search.toLowerCase()) || false`. */
  predicate MatchesSearch(f: Fines.Fine, search: string) {
    Fines.OptIncludes(Fines.RecordTitle(f), search)
  }

  predicate Passes(f: Fines.Fine, search: string, status: string) {
    MatchesSearch(f, search) && Fines.MatchesStatus(f, status)
  }

  /** `filtered`: the member's fines passing both predicates, in fetched order. */
  function FilterFines(fines: seq<Fines.Fine>, search: string, status: string): (r: seq<Fines.Fine>)
    ensures forall i :: 0 <= i < |r| ==> r[i] in fines && Passes(r[i], search, status)
    ensures forall i :: 0 <= i < |fines| && Passes(fines[i], search, status) ==> fines[i] in r
  {
    Filter(fines, (f: Fines.Fine) => Passes(f, search, status))
  }

  /** A fine whose borrow record carries no book title is never listed, even with an empty search. */
  lemma UntitledFineNeverListed(fines: seq<Fines.Fine>, search: string, status: string, i: nat)
    requires i < |fines| && Fines.RecordTitle(fines[i]).None?
    ensures fines[i] !in FilterFines(fines, search, status)
  {
  }

  /** With the initial filters the page lists exactly the fines whose borrow record has a book title. */
  lemma InitialFiltersKeepTitled(fines: seq<Fines.Fine>)
    ensures FilterFines(fines, "", "all") == Filter(fines, (f: Fines.Fine) => Fines.RecordTitle(f).Some?)
  {
    forall f: Fines.Fine | Fines.RecordTitle(f).Some? ensures Passes(f, "", "all") {
      IncludesEmpty(Lower(Fines.RecordTitle(f).value));
    }
    FilterSamePredicate(fines, (f: Fines.Fine) => Passes(f, "", "all"),
                        (f: Fines.Fine) => Fines.RecordTitle(f).Some?);
  }

  /** Unlike the librarian's list, the member's list finds nothing by email or by the fine's own book. */
  lemma NarrowerThanLibrarianSearch()
    ensures var f := Fines.Fine("f", Some(Fines.FineUser(Some("a"))), None, Some(Fines.FineBook(Some("a"))),
                                1000, "late", false, "");
            Fines.MatchesSearch(f, "a") && !MatchesSearch(f, "a")
  {
    IncludesSelf("a");
  }

  /**
   * Every fine the member's search finds through a non-empty record title, the librarian's search
   * finds too. (An empty record title matches the member's empty search, while the librarian's
   * list falls back to the fine's own book title, which may be missing.)
   */
  lemma MemberMatchImpliesLibrarianMatch(f: Fines.Fine, search: string)
    requires MatchesSearch(f, search) && Truthy(Fines.RecordTitle(f))
    ensures Fines.MatchesSearch(f, search)
  {
  }

  /** The empty record title is where the two searches part: the member finds the fine, the librarian does not. */
  lemma EmptyRecordTitleOnlyMemberMatches()
    ensures var f := Fines.Fine("f", None, Some(Fines.FineRecord(Some(Fines.FineBook(Some(""))))), None,
                                1000, "late", false, "");
            MatchesSearch(f, "") && !Fines.MatchesSearch(f, "")
  {
    IncludesEmpty("");
  }

  function TotalPages(fines: seq<Fines.Fine>, search: string, status: string): nat {
    Pagination.PageCount(|FilterFines(fines, search, status)|, PageSize)
  }

  /** `paginated`: the filtered fines in fetched order, ten to a page. */
  function Visible(fines: seq<Fines.Fine>, search: string, status: string, page: int): (r: seq<Fines.Fine>)
    requires page >= 1
    ensures |r| <= PageSize
    ensures (page - 1) * PageSize < |FilterFines(fines, search, status)| ==>
              |r| == Pagination.Min(PageSize, |FilterFines(fines, search, status)| - (page - 1) * PageSize)
    ensures (page - 1) * PageSize >= |FilterFines(fines, search, status)| ==> r == []
    ensures forall k :: 0 <= k < |r| ==>
              (page - 1) * PageSize + k < |FilterFines(fines, search, status)| &&
              r[k] == FilterFines(fines, search, status)[(page - 1) * PageSize + k]
  {
    var filtered := FilterFines(fines, search, status);
    Pagination.PageItemsWindow(filtered, page, PageSize);
    Pagination.PageItems(filtered, page, PageSize)
  }

  /** Every fine the filters keep is shown on one of the pages the controls offer. */
  lemma EveryMatchShown(fines: seq<Fines.Fine>, search: string, status: string, x: Fines.Fine)
    requires x in FilterFines(fines, search, status)
    ensures exists p :: 1 <= p <= TotalPages(fines, search, status) && x in Visible(fines, search, status, p)
  {
    var filtered := FilterFines(fines, search, status);
    var i :| 0 <= i < |filtered| && filtered[i] == x;
    Pagination.EveryItemHasAPage(filtered, PageSize, i);
    var p := i / PageSize + 1;
    assert Visible(fines, search, status, p) == Pagination.PageItems(filtered, p, PageSize);
    assert Visible(fines, search, status, p)[i % PageSize] == x;
  }

  class MemberFinePage {
    var page: int
    var search: string
    var status: string

    ghost predicate Valid()
      reads this
    {
      page >= 1
    }

    constructor ()
      ensures Valid() && page == 1 && search == "" && status == "all"
    {
      page := 1;
      search := "";
      status := "all";
    }

    function Rows(fines: seq<Fines.Fine>): (r: seq<Fines.Fine>)
      reads this
      requires Valid()
      ensures |r| <= PageSize
      ensures (page - 1) * PageSize < |FilterFines(fines, search, status)| ==>
                |r| == Pagination.Min(PageSize, |FilterFines(fines, search, status)| - (page - 1) * PageSize)
      ensures (page - 1) * PageSize >= |FilterFines(fines, search, status)| ==> r == []
      ensures forall k :: 0 <= k < |r| ==>
                (page - 1) * PageSize + k < |FilterFines(fines, search, status)| &&
                r[k] == FilterFines(fines, search, status)[(page - 1) * PageSize + k]
    {
      Visible(fines, search, status, page)
    }

    /** A new search; the effect on `[search, status]` returns to the first page. */
    method SetSearch(s: string)
      requires Valid()
      modifies this
      ensures Valid() && search == s && page == 1 && status == old(status)
    {
      search := s;
      page := 1;
    }

    method SetStatus(s: string)
      requires Valid()
      modifies this
      ensures Valid() && status == s && page == 1 && search == old(search)
    {
      status := s;
      page := 1;
    }

    method PreviousPage()
      requires Valid()
      modifies this
      ensures Valid() && page == Pagination.PrevPage(old(page)) && search == old(search) && status == old(status)
    {
      page := Pagination.Max(1, page - 1);
    }

    /** The Next control, rendered only when there is more than one page. */
    method NextPage(fines: seq<Fines.Fine>)
      requires Valid() && Pagination.ShowControls(TotalPages(fines, search, status))
      modifies this
      ensures Valid() && page == Pagination.NextPage(old(page), TotalPages(fines, search, status))
      ensures search == old(search) && status == old(status)
    {
      page := Pagination.Min(TotalPages(fines, search, status), page + 1);
    }

    method GoToPage(fines: seq<Fines.Fine>, p: int)
      requires Valid() && 1 <= p <= TotalPages(fines, search, status)
      modifies this
      ensures Valid() && page == p && search == old(search) && status == old(status)
    {
      page := p;
    }
  }
}
