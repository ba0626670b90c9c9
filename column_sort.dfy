/**
 * The single-column sort state of the two borrow lists: a column (or none) and a direction
 * (or none), cycled by clicks on a column header: a new column starts ascending, and the
 * same column goes ascending, descending, unsorted.
 */
module ColumnSort {
  import opened Wrappers
  import opened Text

  datatype Dir = Asc | Desc

  datatype SortState<C> = SortState(column: Option<C>, direction: Option<Dir>)

  /** The state both lists start and reset to: no column, no direction. */
  function Unsorted<C>(): SortState<C> {
    SortState(None, None)
  }

  /** A column is chosen exactly when a direction is. */
  predicate WellFormed<C>(st: SortState<C>) {
    st.column.None? <==> st.direction.None?
  }

  /** The sign of the comparator: `sortDirection === "asc" ? 1 : -1`. */
  function Sign(d: Dir): int {
    if d == Asc then 1 else -1
  }

  /** `handleSort(clicked)`. */
  function Toggle<C(==)>(st: SortState<C>, clicked: C): (r: SortState<C>)
    ensures st.column != Some(clicked) ==> r == SortState(Some(clicked), Some(Asc))
    ensures st.column == Some(clicked) && st.direction == Some(Asc) ==> r == SortState(Some(clicked), Some(Desc))
    ensures st.column == Some(clicked) && st.direction == Some(Desc) ==> r == Unsorted()
  {
    if st.column == Some(clicked) then
      var d := match st.direction
        case Some(Asc) => Some(Desc)
        case Some(Desc) => None
        case None => Some(Asc);
      SortState(if st.direction == Some(Desc) then None else st.column, d)
    else
      SortState(Some(clicked), Some(Asc))
  }

  /** Clicking never breaks the pairing of column and direction. */
  lemma ToggleKeepsWellFormed<C>(st: SortState<C>, clicked: C)
    requires WellFormed(st)
    ensures WellFormed(Toggle(st, clicked))
  {
  }

  /** After a click the list is either sorted by the clicked column or unsorted. */
  lemma ToggleTargetsClicked<C>(st: SortState<C>, clicked: C)
    ensures Toggle(st, clicked).column == Some(clicked) || Toggle(st, clicked) == Unsorted()
  {
  }

  /** Three clicks on one column, from unsorted or from a state sorted by that column, return to the start. */
  lemma ThreeClicksCycle<C>(st: SortState<C>, c: C)
    requires WellFormed(st) && (st.column == Some(c) || st.column.None?)
    ensures Toggle(Toggle(Toggle(st, c), c), c) == st
  {
  }

  /** From any state sorted by another column, three clicks on `c` end unsorted. */
  lemma ThreeClicksFromOtherColumn<C>(st: SortState<C>, c: C)
    requires st.column != Some(c)
    ensures Toggle(Toggle(Toggle(st, c), c), c) == Unsorted()
  {
  }

  // ---------------------------------------------------------------------------
  // Column comparisons shared by both lists

  /** `(x > y ? 1 : -1) * direction`: the comparison of a text column, which never reports a tie. */
  function CompareTexts(x: string, y: string, d: Dir): (r: int)
    ensures r == 1 || r == -1
  {
    (if StrLess(y, x) then 1 else -1) * Sign(d)
  }

  /** Equal texts compare as `-direction` both ways round, so the comparison is not antisymmetric. */
  lemma EqualTextsDoNotTie(x: string, d: Dir)
    ensures CompareTexts(x, x, d) == -Sign(d)
  {
    StrLessIrreflexive(x);
  }

  /** Different texts compare antisymmetrically; ascending puts the larger text after the smaller. */
  lemma DifferentTextsOrdered(x: string, y: string, d: Dir)
    requires x != y
    ensures CompareTexts(x, y, d) == -CompareTexts(y, x, d)
    ensures CompareTexts(x, y, Asc) > 0 <==> StrLess(y, x)
  {
    StrLessTotal(x, y);
    StrLessAsymmetric(x, y);
  }

  /**
   * The comparison of a date column whose value may be missing: two missing dates tie, a missing
   * date counts as larger than any present one, and present dates compare by difference.
   */
  function CompareOptionalDates(x: Option<int>, y: Option<int>, d: Dir): int {
    if x.None? && y.None? then 0
    else if x.None? then Sign(d)
    else if y.None? then -Sign(d)
    else (x.value - y.value) * Sign(d)
  }

  /** A missing date goes after present ones when ascending and before them when descending; the comparison is antisymmetric. */
  lemma MissingDateOrder(x: Option<int>, y: Option<int>, d: Dir)
    ensures CompareOptionalDates(x, y, d) == -CompareOptionalDates(y, x, d)
    ensures x.None? && y.Some? ==> (CompareOptionalDates(x, y, Asc) > 0 && CompareOptionalDates(x, y, Desc) < 0)
    ensures x.None? && y.None? ==> CompareOptionalDates(x, y, d) == 0
    ensures CompareOptionalDates(x, y, Desc) == -CompareOptionalDates(x, y, Asc)
  {
  }
}
