/**
 * The multi-key sort of the catalogue pages (books, categories, fines): an ordered list of
 * `{key, direction}` entries toggled by header clicks, and the comparator that walks the
 * list and lets the first key whose two values differ decide.
 */
module MultiSort {
  import opened Wrappers
  import opened Seqs
  import Text
  import Pagination

  datatype Direction = Asc | Desc | NoSort

  datatype SortEntry<K> = SortEntry(key: K, direction: Direction)

  // ---------------------------------------------------------------------------
  // The sort list and its toggle

  /** The direction a click moves an existing entry to: asc, desc, then none (and none back to asc). */
  function Next(d: Direction): Direction {
    match d
    case Asc => Desc
    case Desc => NoSort
    case NoSort => Asc
  }

  /** `s => s.key === key`. */
  function KeyIs<K(==)>(key: K): SortEntry<K> -> bool {
    (e: SortEntry<K>) => e.key == key
  }

  /** `s => s.key !== key`. */
  function KeyIsNot<K(==)>(key: K): SortEntry<K> -> bool {
    (e: SortEntry<K>) => e.key != key
  }

  /** `s => s.key === key ? { ...s, direction } : s`. */
  function SetDirection<K(==)>(key: K, d: Direction): SortEntry<K> -> SortEntry<K> {
    (e: SortEntry<K>) => if e.key == key then SortEntry(e.key, d) else e
  }

  /** `handleSort(key)`: the new sort list after a click on the header of `key`. */
  function Toggle<K(==)>(sorts: seq<SortEntry<K>>, key: K): (r: seq<SortEntry<K>>)
    ensures |r| <= |sorts| + 1
    ensures forall i :: 0 <= i < |r| && r[i].key != key ==> r[i] in sorts
    ensures forall i :: 0 <= i < |sorts| && sorts[i].key != key ==> sorts[i] in r
  {
    match Find(sorts, KeyIs(key))
    case None => sorts + [SortEntry(key, Asc)]
    case Some(existing) =>
      var d := Next(existing.direction);
      if d == NoSort then Filter(sorts, KeyIsNot(key))
      else Map(sorts, SetDirection(key, d))
  }

  /** No key twice and no `none` entry: what every reachable sort list satisfies. */
  ghost predicate WellFormed<K>(sorts: seq<SortEntry<K>>) {
    (forall i, j :: 0 <= i < j < |sorts| ==> sorts[i].key != sorts[j].key) &&
    (forall i :: 0 <= i < |sorts| ==> sorts[i].direction != NoSort)
  }

  /** The page starts with an empty sort list. */
  lemma EmptyIsWellFormed<K>()
    ensures WellFormed<K>([])
  {
  }

  /** In a well-formed list, the entry of a key that occurs is the one `find` returns. */
  lemma FindUnique<K>(sorts: seq<SortEntry<K>>, idx: nat)
    requires WellFormed(sorts) && idx < |sorts|
    ensures Find(sorts, KeyIs(sorts[idx].key)) == Some(sorts[idx])
  {
    var key := sorts[idx].key;
    var r := Find(sorts, KeyIs(key));
    var i :| 0 <= i < |sorts| && sorts[i] == r.value && sorts[i].key == key &&
             forall j :: 0 <= j < i ==> sorts[j].key != key;
    assert i == idx;
  }

  /** Clicking a key that is not in the list appends it, ascending, after the others. */
  lemma ToggleAbsent<K>(sorts: seq<SortEntry<K>>, key: K)
    requires forall i :: 0 <= i < |sorts| ==> sorts[i].key != key
    ensures Toggle(sorts, key) == sorts + [SortEntry(key, Asc)]
  {
  }

  /** Clicking an ascending key turns it descending in place; every other entry stays where it was. */
  lemma ToggleAscending<K>(sorts: seq<SortEntry<K>>, idx: nat)
    requires WellFormed(sorts) && idx < |sorts| && sorts[idx].direction == Asc
    ensures var r := Toggle(sorts, sorts[idx].key);
            |r| == |sorts| && r[idx] == SortEntry(sorts[idx].key, Desc) &&
            forall i :: 0 <= i < |sorts| && i != idx ==> r[i] == sorts[i]
  {
    FindUnique(sorts, idx);
  }

  /** Clicking a descending key removes its entry; the others keep their order. */
  lemma ToggleDescending<K>(sorts: seq<SortEntry<K>>, idx: nat)
    requires WellFormed(sorts) && idx < |sorts| && sorts[idx].direction == Desc
    ensures Toggle(sorts, sorts[idx].key) == sorts[..idx] + sorts[idx + 1..]
  {
    var key := sorts[idx].key;
    FindUnique(sorts, idx);
    FilterRemovesOne(sorts, idx, KeyIsNot(key));
  }

  /** Removing one entry keeps the remaining keys distinct and directions set. */
  lemma RemovalKeepsWellFormed<K>(sorts: seq<SortEntry<K>>, idx: nat)
    requires WellFormed(sorts) && idx < |sorts|
    ensures WellFormed(sorts[..idx] + sorts[idx + 1..])
  {
    var r := sorts[..idx] + sorts[idx + 1..];
    assert forall i :: 0 <= i < |r| ==> r[i] == sorts[if i < idx then i else i + 1];
  }

  /** Changing the direction of one entry to a real direction keeps the list well formed. */
  lemma RedirectKeepsWellFormed<K>(sorts: seq<SortEntry<K>>, idx: nat, r: seq<SortEntry<K>>)
    requires WellFormed(sorts) && idx < |sorts|
    requires |r| == |sorts| && r[idx] == SortEntry(sorts[idx].key, Desc)
    requires forall i :: 0 <= i < |sorts| && i != idx ==> r[i] == sorts[i]
    ensures WellFormed(r)
  {
    assert forall i :: 0 <= i < |r| ==> r[i].key == sorts[i].key;
  }

  /** Appending a key that is absent, with a real direction, keeps the list well formed. */
  lemma AppendKeepsWellFormed<K>(sorts: seq<SortEntry<K>>, key: K)
    requires WellFormed(sorts) && forall i :: 0 <= i < |sorts| ==> sorts[i].key != key
    ensures WellFormed(sorts + [SortEntry(key, Asc)])
  {
  }

  /** Every click keeps the list well formed. */
  lemma ToggleKeepsWellFormed<K>(sorts: seq<SortEntry<K>>, key: K)
    requires WellFormed(sorts)
    ensures WellFormed(Toggle(sorts, key))
  {
    if idx :| 0 <= idx < |sorts| && sorts[idx].key == key {
      if sorts[idx].direction == Asc {
        ToggleAscending(sorts, idx);
        RedirectKeepsWellFormed(sorts, idx, Toggle(sorts, key));
      } else {
        ToggleDescending(sorts, idx);
        RemovalKeepsWellFormed(sorts, idx);
      }
    } else {
      ToggleAbsent(sorts, key);
      AppendKeepsWellFormed(sorts, key);
    }
  }

  /** A key clicked three times from absent is absent again, and the rest of the list is as before. */
  lemma ThreeClicksRemove<K>(sorts: seq<SortEntry<K>>, key: K)
    requires WellFormed(sorts) && forall i :: 0 <= i < |sorts| ==> sorts[i].key != key
    ensures Toggle(Toggle(Toggle(sorts, key), key), key) == sorts
  {
    var n := |sorts|;
    var s1 := Toggle(sorts, key);
    ToggleAbsent(sorts, key);
    ToggleKeepsWellFormed(sorts, key);
    assert s1[n] == SortEntry(key, Asc);
    ToggleAscending(s1, n);
    var s2 := Toggle(s1, key);
    ToggleKeepsWellFormed(s1, key);
    assert s2[n].key == key;
    ToggleDescending(s2, n);
    assert s2[..n] == sorts;
  }

  // ---------------------------------------------------------------------------
  // Values and the comparator

  /** A field value as the comparator sees it; a key that is not a field reads as `undefined`. */
  datatype Value = Str(s: string) | Num(n: int) | Bool(b: bool) | Undefined

  /**
   * JavaScript `a < b` between two values of one column: string order on strings, numeric
   * order on numbers, `false < true` on booleans; `undefined` (or two values of different
   * kinds, which no column holds) compares false both ways.
   */
  predicate Less(a: Value, b: Value) {
    match (a, b)
    case (Str(x), Str(y)) => Text.StrLess(x, y)
    case (Num(x), Num(y)) => x < y
    case (Bool(x), Bool(y)) => !x && y
    case _ => false
  }

  lemma LessIrreflexive(a: Value)
    ensures !Less(a, a)
  {
    if a.Str? {
      Text.StrLessIrreflexive(a.s);
    }
  }

  lemma LessAsymmetric(a: Value, b: Value)
    ensures !(Less(a, b) && Less(b, a))
  {
    if a.Str? && b.Str? {
      Text.StrLessAsymmetric(a.s, b.s);
    }
  }

  /** Two values tie when neither is smaller: the comparator moves on to the next key. */
  predicate Ties(a: Value, b: Value) {
    !Less(a, b) && !Less(b, a)
  }

  /** An entry that takes part in the comparison compares its two values and finds them tied. */
  predicate EntryTies<T, K>(e: SortEntry<K>, field: (T, K) -> Value, a: T, b: T) {
    e.direction == NoSort || Ties(field(a, e.key), field(b, e.key))
  }

  /**
   * The comparator of the catalogue pages: the entries are tried in list order, `none` entries
   * are skipped, and the first key whose values differ returns -1 or 1 as its direction says.
   */
  function Compare<T, K>(sorts: seq<SortEntry<K>>, field: (T, K) -> Value, a: T, b: T): (r: int)
    ensures r == -1 || r == 0 || r == 1
    decreases |sorts|
  {
    if sorts == [] then 0
    else
      var e := sorts[0];
      if e.direction == NoSort then Compare(sorts[1..], field, a, b)
      else
        var x := field(a, e.key);
        var y := field(b, e.key);
        if Less(x, y) then (if e.direction == Asc then -1 else 1)
        else if Less(y, x) then (if e.direction == Asc then 1 else -1)
        else Compare(sorts[1..], field, a, b)
  }

  /** Swapping the operands negates the result. */
  lemma {:induction false} CompareAntisymmetric<T, K>(sorts: seq<SortEntry<K>>, field: (T, K) -> Value, a: T, b: T)
    ensures Compare(sorts, field, a, b) == -Compare(sorts, field, b, a)
    decreases |sorts|
  {
    if sorts != [] {
      var e := sorts[0];
      LessAsymmetric(field(a, e.key), field(b, e.key));
      CompareAntisymmetric(sorts[1..], field, a, b);
    }
  }

  /** Every element ties with itself. */
  lemma {:induction false} CompareSelf<T, K>(sorts: seq<SortEntry<K>>, field: (T, K) -> Value, a: T)
    ensures Compare(sorts, field, a, a) == 0
    decreases |sorts|
  {
    if sorts != [] {
      LessIrreflexive(field(a, sorts[0].key));
      CompareSelf(sorts[1..], field, a);
    }
  }

  /** The result is 0 exactly when every entry of the list ties. */
  lemma {:induction false} CompareZeroIffAllTie<T, K>(sorts: seq<SortEntry<K>>, field: (T, K) -> Value, a: T, b: T)
    ensures Compare(sorts, field, a, b) == 0 <==>
            forall i :: 0 <= i < |sorts| ==> EntryTies(sorts[i], field, a, b)
    decreases |sorts|
  {
    if sorts != [] {
      CompareZeroIffAllTie(sorts[1..], field, a, b);
      assert forall i :: 1 <= i < |sorts| ==> sorts[i] == sorts[1..][i - 1];
    }
  }

  /** The first entry that does not tie decides, with the sign its direction gives. */
  lemma {:induction false} FirstDifferenceDecides<T, K>(sorts: seq<SortEntry<K>>, field: (T, K) -> Value,
                                                         a: T, b: T, i: nat)
    requires i < |sorts| && sorts[i].direction != NoSort
    requires Less(field(a, sorts[i].key), field(b, sorts[i].key))
    requires forall j :: 0 <= j < i ==> EntryTies(sorts[j], field, a, b)
    ensures Compare(sorts, field, a, b) == (if sorts[i].direction == Asc then -1 else 1)
    decreases i
  {
    if i > 0 {
      assert EntryTies(sorts[0], field, a, b);
      assert forall j :: 0 <= j < i - 1 ==> sorts[1..][j] == sorts[j + 1];
      FirstDifferenceDecides(sorts[1..], field, a, b, i - 1);
    }
  }

  /** An entry that ties (a `none` entry, or a key both elements read alike) can be dropped without effect. */
  lemma {:induction false} TiedEntryIsNeutral<T, K>(sorts: seq<SortEntry<K>>, field: (T, K) -> Value,
                                                     a: T, b: T, i: nat)
    requires i < |sorts| && EntryTies(sorts[i], field, a, b)
    ensures Compare(sorts[..i] + sorts[i + 1..], field, a, b) == Compare(sorts, field, a, b)
    decreases i
  {
    if i == 0 {
      assert sorts[..0] + sorts[1..] == sorts[1..];
    } else {
      var rest := sorts[1..][..i - 1] + sorts[1..][i..];
      assert (sorts[..i] + sorts[i + 1..])[1..] == rest;
      TiedEntryIsNeutral(sorts[1..], field, a, b, i - 1);
    }
  }

  /** A key that reads `undefined` on every element never changes the order. */
  lemma UndefinedKeyIsNeutral<T, K>(sorts: seq<SortEntry<K>>, field: (T, K) -> Value, a: T, b: T, i: nat)
    requires i < |sorts| && field(a, sorts[i].key) == Undefined && field(b, sorts[i].key) == Undefined
    ensures Compare(sorts[..i] + sorts[i + 1..], field, a, b) == Compare(sorts, field, a, b)
  {
    TiedEntryIsNeutral(sorts, field, a, b, i);
  }

  /** A tied first entry is skipped. */
  lemma TiedHeadSkipped<T, K>(sorts: seq<SortEntry<K>>, field: (T, K) -> Value, a: T, b: T)
    requires sorts != [] && EntryTies(sorts[0], field, a, b)
    ensures Compare(sorts, field, a, b) == Compare(sorts[1..], field, a, b)
  {
  }

  /** Two lists with the same first entry whose tails compare alike compare alike. */
  lemma SameHeadSameResult<T, K>(s: seq<SortEntry<K>>, t: seq<SortEntry<K>>, field: (T, K) -> Value, a: T, b: T)
    requires s != [] && t != [] && s[0] == t[0]
    requires Compare(s[1..], field, a, b) == Compare(t[1..], field, a, b)
    ensures Compare(s, field, a, b) == Compare(t, field, a, b)
  {
  }

  /** Dropping every entry that ties, wherever it stands in the list, leaves the result unchanged. */
  lemma {:induction false} DroppingTiedEntries<T, K>(sorts: seq<SortEntry<K>>, field: (T, K) -> Value, a: T, b: T,
                                                      keep: SortEntry<K> -> bool)
    requires forall i :: 0 <= i < |sorts| && !keep(sorts[i]) ==> EntryTies(sorts[i], field, a, b)
    ensures Compare(Filter(sorts, keep), field, a, b) == Compare(sorts, field, a, b)
    decreases |sorts|
  {
    if sorts != [] {
      var rest := sorts[1..];
      assert forall i :: 0 <= i < |rest| ==> rest[i] == sorts[i + 1];
      DroppingTiedEntries(rest, field, a, b, keep);
      var kept := Filter(rest, keep);
      if keep(sorts[0]) {
        assert Filter(sorts, keep) == [sorts[0]] + kept;
        assert ([sorts[0]] + kept)[1..] == kept;
        SameHeadSameResult([sorts[0]] + kept, sorts, field, a, b);
      } else {
        assert Filter(sorts, keep) == kept;
        TiedHeadSkipped(sorts, field, a, b);
      }
    }
  }

  /** With no entries, or only `none` entries, every pair ties. */
  lemma InactiveListTies<T, K>(sorts: seq<SortEntry<K>>, field: (T, K) -> Value, a: T, b: T)
    requires forall i :: 0 <= i < |sorts| ==> sorts[i].direction == NoSort
    ensures Compare(sorts, field, a, b) == 0
  {
    CompareZeroIffAllTie(sorts, field, a, b);
  }

  // ---------------------------------------------------------------------------
  // The sorted view

  /**
   * The `sorted` memo: an empty filtered list, or an empty sort list, gives the filtered list
   * itself; otherwise the engine's `Array.prototype.sort` runs with the comparator. The engine is
   * a parameter: the model fixes the comparator's values and that the engine rearranges its
   * input, not the order it picks.
   */
  function SortedView<T(!new), K>(filtered: seq<T>, sorts: seq<SortEntry<K>>, field: (T, K) -> Value,
                            engine: (seq<T>, (T, T) -> int) -> seq<T>): (r: seq<T>)
    requires SortPermutes(engine)
    ensures multiset(r) == multiset(filtered)
    ensures filtered == [] ==> r == []
    ensures sorts == [] ==> r == filtered
  {
    if |filtered| == 0 || |sorts| == 0 then filtered
    else engine(filtered, (a: T, b: T) => Compare(sorts, field, a, b))
  }

  /** Sorted or not, the page of the view shows only filtered items, as many as the unsorted page. */
  lemma SortedPage<T(!new), K>(filtered: seq<T>, sorts: seq<SortEntry<K>>, field: (T, K) -> Value,
                         engine: (seq<T>, (T, T) -> int) -> seq<T>, page: int, size: nat)
    requires SortPermutes(engine) && page >= 1
    ensures var r := Pagination.PageItems(SortedView(filtered, sorts, field, engine), page, size);
            |r| == |Pagination.PageItems(filtered, page, size)| && forall x :: x in r ==> x in filtered
  {
    Pagination.PageOfPermutation(filtered, SortedView(filtered, sorts, field, engine), page, size);
  }

  /** Sorted or not, every filtered item is shown on one of the pages the controls offer. */
  lemma SortedPagesCover<T(!new), K>(filtered: seq<T>, sorts: seq<SortEntry<K>>, field: (T, K) -> Value,
                               engine: (seq<T>, (T, T) -> int) -> seq<T>, size: nat, x: T)
    requires SortPermutes(engine) && size > 0 && x in filtered
    ensures exists p :: 1 <= p <= Pagination.PageCount(|filtered|, size) &&
                        x in Pagination.PageItems(SortedView(filtered, sorts, field, engine), p, size)
  {
    Pagination.PermutationFullyPaged(filtered, SortedView(filtered, sorts, field, engine), size, x);
  }
}
