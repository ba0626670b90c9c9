/**
 * Client-side pagination shared by the list pages: the page count `Math.ceil(total / size)`,
 * the visible slice `list.slice((page - 1) * size, page * size)`, the row numbers shown in
 * the first column, and the Previous/Next controls with their clamps and guards.
 */
module Pagination {
  import Seqs

  function Min(a: int, b: int): int { if a <= b then a else b }
  function Max(a: int, b: int): int { if a >= b then a else b }

  /** `Math.ceil(total / size)`: the least number of pages of `size` items that holds `total` items. */
  function PageCount(total: nat, size: nat): (r: nat)
    requires size > 0
    ensures total <= r * size
    ensures r == 0 || (r - 1) * size < total
  {
    var r := (total + size - 1) / size;
    assert r * size + (total + size - 1) % size == total + size - 1;
    r
  }

  /** No page is needed exactly for the empty list. */
  lemma PageCountZero(total: nat, size: nat)
    requires size > 0
    ensures PageCount(total, size) == 0 <==> total == 0
  {
  }

  // ---------------------------------------------------------------------------
  // Array.prototype.slice

  /** How `slice` normalises one bound: negative counts from the end, then clamp to `[0, len]`. */
  function ClampIndex(i: int, len: nat): (r: nat)
    ensures r <= len
    ensures 0 <= i <= len ==> r == i
  {
    if i < 0 then (if len + i < 0 then 0 else len + i) else if i > len then len else i
  }

  /** `s.slice(start, end)`. */
  function JsSlice<T>(s: seq<T>, start: int, end: int): (r: seq<T>)
    ensures |r| <= |s|
  {
    var a := ClampIndex(start, |s|);
    var b := ClampIndex(end, |s|);
    if a < b then s[a..b] else []
  }

  /** The items shown on page `page` (counted from 1) when each page holds `size` items. */
  function PageItems<T>(s: seq<T>, page: int, size: nat): (r: seq<T>)
    ensures forall i :: 0 <= i < |r| ==> r[i] in s
  {
    JsSlice(s, (page - 1) * size, page * size)
  }

  /** A slice with bounds `0 <= a <= b` is the window between them, clamped to the list. */
  lemma SliceWindow<T>(s: seq<T>, a: int, b: int)
    requires 0 <= a <= b
    ensures JsSlice(s, a, b) == s[Min(a, |s|)..Min(b, |s|)]
    ensures |JsSlice(s, a, b)| <= b - a
  {
  }

  /** On a page counted from 1, the slice is the window of `size` items starting at `(page - 1) * size`. */
  lemma PageItemsWindow<T>(s: seq<T>, page: int, size: nat)
    requires page >= 1
    ensures var first := Min((page - 1) * size, |s|);
            PageItems(s, page, size) == s[first..Min(page * size, |s|)]
    ensures |PageItems(s, page, size)| <= size
  {
    var a := (page - 1) * size;
    assert a >= 0;
    assert page * size == a + size;
    SliceWindow(s, a, page * size);
  }

  /** Position `k` of a slice taken from `a` is the list's item `a + k`, while that lies before `b`. */
  lemma SliceAt<T>(s: seq<T>, a: int, b: int, k: nat)
    requires 0 <= a && a + k < |s| && a + k < b
    ensures k < |JsSlice(s, a, b)| && JsSlice(s, a, b)[k] == s[a + k]
  {
  }

  /** The item in position `k` of page `page` is the list's item `(page - 1) * size + k`. */
  lemma PageItemsAt<T>(s: seq<T>, page: int, size: nat, k: nat)
    requires page >= 1 && k < size && (page - 1) * size + k < |s|
    ensures k < |PageItems(s, page, size)|
    ensures PageItems(s, page, size)[k] == s[(page - 1) * size + k]
  {
    var a := (page - 1) * size;
    assert a >= 0;
    assert page * size == a + size;
    SliceAt(s, a, page * size, k);
  }

  /** Every item of the list is shown on exactly the page `i / size + 1`, at position `i % size`. */
  lemma EveryItemHasAPage<T>(s: seq<T>, size: nat, i: nat)
    requires size > 0 && i < |s|
    ensures 1 <= i / size + 1 <= PageCount(|s|, size)
    ensures i % size < |PageItems(s, i / size + 1, size)|
    ensures PageItems(s, i / size + 1, size)[i % size] == s[i]
  {
    var p := i / size + 1;
    var c := PageCount(|s|, size);
    assert i == (p - 1) * size + i % size;
    assert p <= c by {
      if c <= p - 1 {
        MulMonotone(c, p - 1, size);
      }
    }
    PageItemsAt(s, p, size, i % size);
  }

  lemma MulMonotone(a: int, b: int, k: nat)
    requires a <= b
    ensures a * k <= b * k
  {
  }

  /** A page past the last one shows nothing. */
  lemma PastTheLastPage<T>(s: seq<T>, page: int, size: nat)
    requires size > 0 && page > PageCount(|s|, size)
    ensures PageItems(s, page, size) == []
  {
    var c := PageCount(|s|, size);
    MulMonotone(c, page - 1, size);
    PageItemsWindow(s, page, size);
  }

  /** The number shown in the first column of row `idx` of page `page`: `(page - 1) * size + idx + 1`. */
  function RowNumber(page: int, size: nat, idx: nat): int {
    (page - 1) * size + idx + 1
  }

  /** Conversely, any position `k` of a slice taken from `a >= 0` holds the list's item `a + k`. */
  lemma SliceIndex<T>(s: seq<T>, a: int, b: int, k: nat)
    requires 0 <= a && 0 <= b && k < |JsSlice(s, a, b)|
    ensures a + k < |s| && a + k < b && JsSlice(s, a, b)[k] == s[a + k]
  {
  }

  /** Row numbers count the list from 1: row `idx` of a page shows item `RowNumber - 1` of the list. */
  lemma RowNumberIsListPosition<T>(s: seq<T>, page: int, size: nat, idx: nat)
    requires page >= 1 && idx < |PageItems(s, page, size)|
    ensures 1 <= RowNumber(page, size, idx) <= |s|
    ensures PageItems(s, page, size)[idx] == s[RowNumber(page, size, idx) - 1]
  {
    var a := (page - 1) * size;
    assert a >= 0 && page * size >= 0;
    SliceIndex(s, a, page * size, idx);
    assert RowNumber(page, size, idx) == a + idx + 1;
  }

  // ---------------------------------------------------------------------------
  // Pages of a rearranged list

  /**
   * Paging a rearrangement of a list (what a sort produces) shows as many rows as paging the
   * list itself, and every row shown is an item of the list.
   */
  lemma PageOfPermutation<T>(s: seq<T>, t: seq<T>, page: int, size: nat)
    requires page >= 1 && multiset(t) == multiset(s)
    ensures |PageItems(t, page, size)| <= size
    ensures |PageItems(t, page, size)| == |PageItems(s, page, size)|
    ensures forall x :: x in PageItems(t, page, size) ==> x in s
  {
    assert |t| == |multiset(t)| == |multiset(s)| == |s|;
    PageItemsWindow(s, page, size);
    PageItemsWindow(t, page, size);
    forall x | x in PageItems(t, page, size) ensures x in s {
      assert x in t;
      assert x in multiset(t);
    }
  }

  /** A page of what a sort engine returns for `s` shows only items of `s`, as many as the page of `s`. */
  lemma SortedPageOf<T(!new)>(s: seq<T>, cmp: (T, T) -> int, engine: (seq<T>, (T, T) -> int) -> seq<T>,
                              page: int, size: nat)
    requires Seqs.SortPermutes(engine) && page >= 1
    ensures var r := PageItems(engine(s, cmp), page, size);
            |r| <= size && |r| == |PageItems(s, page, size)| && forall x :: x in r ==> x in s
  {
    PageOfPermutation(s, engine(s, cmp), page, size);
  }

  /** Every item of a rearranged list is shown on some page between 1 and the page count. */
  lemma PermutationFullyPaged<T>(s: seq<T>, t: seq<T>, size: nat, x: T)
    requires size > 0 && multiset(t) == multiset(s) && x in s
    ensures exists p :: 1 <= p <= PageCount(|s|, size) && x in PageItems(t, p, size)
  {
    assert |t| == |multiset(t)| == |multiset(s)| == |s|;
    assert x in multiset(t);
    var i :| 0 <= i < |t| && t[i] == x;
    EveryItemHasAPage(t, size, i);
  }

  // ---------------------------------------------------------------------------
  // Previous / Next

  /** The Previous control of the catalogue pages: `Math.max(1, p - 1)`. */
  function PrevPage(p: int): int {
    Max(1, p - 1)
  }

  /** The Next control of the catalogue pages: `Math.min(totalPages, p + 1)`. */
  function NextPage(p: int, totalPages: int): int {
    Min(totalPages, p + 1)
  }

  /** The clamped controls move by at most one page and never leave `[1, totalPages]`. */
  lemma ClampedStepsStayInRange(p: int, totalPages: int)
    requires 1 <= p <= totalPages
    ensures 1 <= PrevPage(p) <= totalPages && 1 <= NextPage(p, totalPages) <= totalPages
    ensures PrevPage(p) == (if p > 1 then p - 1 else 1)
    ensures NextPage(p, totalPages) == (if p < totalPages then p + 1 else totalPages)
  {
  }

  /** The catalogue pages render their controls only when there is more than one page. */
  predicate ShowControls(totalPages: int) {
    totalPages > 1
  }

  /** The borrow lists render Previous only after the first page: `currentPage > 1`. */
  predicate ShowPrevious(p: int) {
    p > 1
  }

  /** The borrow lists render Next only before the last page: `currentPage < pageCount`. */
  predicate ShowNext(p: int, pageCount: int) {
    p < pageCount
  }

  /** A guarded step of the borrow lists, taken from a page in range, lands on a page in range. */
  lemma GuardedStepsStayInRange(p: int, pageCount: int)
    requires 1 <= p <= pageCount
    ensures ShowPrevious(p) ==> 1 <= p - 1 <= pageCount
    ensures ShowNext(p, pageCount) ==> 1 <= p + 1 <= pageCount
    ensures pageCount == 1 ==> !ShowPrevious(p) && !ShowNext(p, pageCount)
  {
  }
}
