/**
 * The category list page: a case-folded name search, the multi-key sort over name and
 * creation date, and ten rows per page. `CategoryPage` holds the page's React state.
 */
module Categories {
  import opened Text
  import opened Seqs
  import opened MultiSort
  import Pagination

  /** A category as fetched; `createdAt` is the ISO timestamp string the server sends. */
  datatype Category = Category(id: string, name: string, createdAt: string)

  datatype CategoryKey = NameKey | CreatedAtKey

  const PageSize: nat := 10

  /** `category[key]` as the comparator reads it. */
  function Field(c: Category, k: CategoryKey): Value {
    match k
    case NameKey => Str(c.name)
    case CreatedAtKey => Str(c.createdAt)
  }

  predicate MatchesSearch(c: Category, search: string) {
    Includes(Lower(c.name), Lower(search))
  }

  /** `filtered`: the categories whose name contains the search, in their fetched order. */
  function FilterCategories(categories: seq<Category>, search: string): (r: seq<Category>)
    ensures forall i :: 0 <= i < |r| ==> r[i] in categories && MatchesSearch(r[i], search)
    ensures forall i :: 0 <= i < |categories| && MatchesSearch(categories[i], search) ==> categories[i] in r
  {
    Filter(categories, (c: Category) => MatchesSearch(c, search))
  }

  /** An empty search keeps every category, in order. */
  lemma EmptySearchKeepsAll(categories: seq<Category>)
    ensures FilterCategories(categories, "") == categories
  {
    forall i | 0 <= i < |categories| ensures MatchesSearch(categories[i], "") {
      IncludesEmpty(Lower(categories[i].name));
    }
    FilterKeepsAll(categories, (c: Category) => MatchesSearch(c, ""));
  }

  /** The search ignores letter case: a category is found by its own name written in any case. */
  lemma FoundByOwnName(c: Category, search: string)
    requires Lower(search) == Lower(c.name)
    ensures MatchesSearch(c, search)
  {
    IncludesSelf(Lower(c.name));
  }

  /**
   * Sorting by name alone: two categories tie exactly when their names are equal, and
   * otherwise the smaller name comes first ascending and last descending.
   */
  lemma SortByName(a: Category, b: Category, d: Direction)
    requires d != NoSort
    ensures var r := Compare([SortEntry(NameKey, d)], Field, a, b);
            (r == 0 <==> a.name == b.name) &&
            (Text.StrLess(a.name, b.name) ==> r == (if d == Asc then -1 else 1))
  {
    StrLessTotal(a.name, b.name);
    StrLessAsymmetric(a.name, b.name);
    StrLessIrreflexive(a.name);
  }

  /** The rows on screen: filtered, then sorted when a sort is active, then sliced. */
  function Visible(categories: seq<Category>, search: string, sorts: seq<SortEntry<CategoryKey>>, page: int,
                   engine: (seq<Category>, (Category, Category) -> int) -> seq<Category>): (r: seq<Category>)
    requires page >= 1 && SortPermutes(engine)
    ensures |r| <= PageSize
    ensures |r| == |Pagination.PageItems(FilterCategories(categories, search), page, PageSize)|
    ensures forall x :: x in r ==> x in FilterCategories(categories, search)
    ensures sorts == [] ==> r == Pagination.PageItems(FilterCategories(categories, search), page, PageSize)
  {
    var sorted := SortedView(FilterCategories(categories, search), sorts, Field, engine);
    Pagination.PageItemsWindow(sorted, page, PageSize);
    SortedPage(FilterCategories(categories, search), sorts, Field, engine, page, PageSize);
    Pagination.PageItems(sorted, page, PageSize)
  }

  /** Whatever the sort, every match is shown on one of the pages the controls offer. */
  lemma EveryMatchShown(categories: seq<Category>, search: string, sorts: seq<SortEntry<CategoryKey>>,
                        engine: (seq<Category>, (Category, Category) -> int) -> seq<Category>, x: Category)
    requires SortPermutes(engine) && x in FilterCategories(categories, search)
    ensures exists p :: 1 <= p <= TotalPages(categories, search) &&
                        x in Visible(categories, search, sorts, p, engine)
  {
    SortedPagesCover(FilterCategories(categories, search), sorts, Field, engine, PageSize, x);
    var p :| 1 <= p <= TotalPages(categories, search) &&
             x in Pagination.PageItems(SortedView(FilterCategories(categories, search), sorts, Field, engine), p, PageSize);
    assert Visible(categories, search, sorts, p, engine) == Pagination.PageItems(SortedView(FilterCategories(categories, search), sorts, Field, engine), p, PageSize);
  }

  function TotalPages(categories: seq<Category>, search: string): nat {
    Pagination.PageCount(|FilterCategories(categories, search)|, PageSize)
  }

  // ---------------------------------------------------------------------------
  // The page state

  class CategoryPage {
    var page: int
    var search: string
    var sorts: seq<SortEntry<CategoryKey>>

    ghost predicate Valid()
      reads this
    {
      page >= 1 && WellFormed(sorts)
    }

    constructor ()
      ensures Valid() && page == 1 && search == "" && sorts == []
    {
      page := 1;
      search := "";
      sorts := [];
    }

    function Rows(categories: seq<Category>,
                  engine: (seq<Category>, (Category, Category) -> int) -> seq<Category>): (r: seq<Category>)
      reads this
      requires Valid() && SortPermutes(engine)
      ensures |r| <= PageSize
      ensures |r| == |Pagination.PageItems(FilterCategories(categories, search), page, PageSize)|
      ensures forall x :: x in r ==> x in FilterCategories(categories, search)
    {
      Visible(categories, search, sorts, page, engine)
    }

    /** `handleSort(key)`: the multi-key toggle; the list stays free of duplicates and `none` entries. */
    method HandleSort(key: CategoryKey)
      requires Valid()
      modifies this
      ensures Valid() && sorts == Toggle(old(sorts), key)
      ensures page == old(page) && search == old(search)
    {
      ToggleKeepsWellFormed(sorts, key);
      sorts := Toggle(sorts, key);
    }

    /** Typing in the search box; the effect on `[search]` returns to the first page. */
    method SetSearch(s: string)
      requires Valid()
      modifies this
      ensures Valid() && search == s && page == 1 && sorts == old(sorts)
    {
      search := s;
      page := 1;
    }

    /** The Previous control: one page back, never before the first. */
    method PreviousPage()
      requires Valid()
      modifies this
      ensures Valid() && page == Pagination.PrevPage(old(page))
      ensures search == old(search) && sorts == old(sorts)
    {
      page := Pagination.Max(1, page - 1);
    }

    /** The Next control, rendered only when there is more than one page: never past the last. */
    method NextPage(categories: seq<Category>)
      requires Valid() && Pagination.ShowControls(TotalPages(categories, search))
      modifies this
      ensures Valid() && page == Pagination.NextPage(old(page), TotalPages(categories, search))
      ensures search == old(search) && sorts == old(sorts)
    {
      page := Pagination.Min(TotalPages(categories, search), page + 1);
    }

    /** One of the numbered page links. */
    method GoToPage(categories: seq<Category>, p: int)
      requires Valid() && 1 <= p <= TotalPages(categories, search)
      modifies this
      ensures Valid() && page == p && search == old(search) && sorts == old(sorts)
    {
      page := p;
    }
  }
}
