/** The array methods the list pages use: `filter`, `find`, `some` and `map`. */
module Seqs {
  import opened Wrappers

  /** `s.filter(p)`: the elements of `s` that satisfy `p`, in their order in `s`. */
  function Filter<T(==)>(s: seq<T>, p: T -> bool): (r: seq<T>)
    ensures |r| <= |s|
    ensures forall i :: 0 <= i < |r| ==> p(r[i]) && r[i] in s
    ensures forall i :: 0 <= i < |s| && p(s[i]) ==> s[i] in r
  {
    if s == [] then [] else (if p(s[0]) then [s[0]] else []) + Filter(s[1..], p)
  }

  /** Filtering distributes over concatenation: the kept elements stay in their input order. */
  lemma {:induction false} FilterAppend<T>(a: seq<T>, b: seq<T>, p: T -> bool)
    ensures Filter(a + b, p) == Filter(a, p) + Filter(b, p)
    decreases |a|
  {
    if a == [] {
      assert a + b == b;
    } else {
      assert (a + b)[1..] == a[1..] + b;
      FilterAppend(a[1..], b, p);
    }
  }

  /** A predicate that holds everywhere keeps the whole list, in order. */
  lemma {:induction false} FilterKeepsAll<T>(s: seq<T>, p: T -> bool)
    requires forall i :: 0 <= i < |s| ==> p(s[i])
    ensures Filter(s, p) == s
    decreases |s|
  {
    if s != [] {
      FilterKeepsAll(s[1..], p);
      assert s == [s[0]] + s[1..];
    }
  }

  /** A predicate that holds nowhere keeps nothing. */
  lemma FilterKeepsNone<T>(s: seq<T>, p: T -> bool)
    requires forall i :: 0 <= i < |s| ==> !p(s[i])
    ensures Filter(s, p) == []
  {
  }

  /** Two predicates that agree on every element of the list keep the same elements. */
  lemma {:induction false} FilterSamePredicate<T>(s: seq<T>, p: T -> bool, q: T -> bool)
    requires forall i :: 0 <= i < |s| ==> p(s[i]) == q(s[i])
    ensures Filter(s, p) == Filter(s, q)
    decreases |s|
  {
    if s != [] {
      FilterSamePredicate(s[1..], p, q);
    }
  }

  /** Filtering a list whose one failing element sits between two passing runs drops just that element. */
  lemma FilterDropsOne<T>(front: seq<T>, x: T, back: seq<T>, p: T -> bool)
    requires forall i :: 0 <= i < |front| ==> p(front[i])
    requires !p(x)
    requires forall i :: 0 <= i < |back| ==> p(back[i])
    ensures Filter(front + ([x] + back), p) == front + back
  {
    assert Filter([x] + back, p) == back by {
      assert ([x] + back)[1..] == back;
      FilterKeepsAll(back, p);
    }
    assert Filter(front, p) == front by {
      FilterKeepsAll(front, p);
    }
    FilterAppend(front, [x] + back, p);
  }

  /** A list is its prefix before `idx`, the element at `idx` and the suffix after it. */
  lemma SplitAround<T>(s: seq<T>, idx: nat)
    requires idx < |s|
    ensures s == s[..idx] + ([s[idx]] + s[idx + 1..])
  {
  }

  /** Filtering out exactly one position removes that element and keeps the rest in order. */
  lemma FilterRemovesOne<T>(s: seq<T>, idx: nat, p: T -> bool)
    requires idx < |s| && !p(s[idx])
    requires forall i :: 0 <= i < |s| && i != idx ==> p(s[i])
    ensures Filter(s, p) == s[..idx] + s[idx + 1..]
  {
    var front, back := s[..idx], s[idx + 1..];
    assert forall i :: 0 <= i < |front| ==> p(front[i]) by {
      assert forall i :: 0 <= i < |front| ==> front[i] == s[i];
    }
    assert forall i :: 0 <= i < |back| ==> p(back[i]) by {
      assert forall i :: 0 <= i < |back| ==> back[i] == s[idx + 1 + i];
    }
    SplitAround(s, idx);
    FilterDropsOne(front, s[idx], back, p);
  }

  /**
   * What `Array.prototype.sort` guarantees whatever comparator it is given, consistent or not:
   * the sorted array holds the same elements as before, each as often.
   */
  ghost predicate SortPermutes<T(!new)>(engine: (seq<T>, (T, T) -> int) -> seq<T>) {
    forall s: seq<T>, c: (T, T) -> int :: multiset(engine(s, c)) == multiset(s)
  }

  /**
   * A stable sort engine: with a comparator that ties every pair, the list comes back in its
   * original order. ECMAScript has required `Array.prototype.sort` to be stable since 2019.
   */
  ghost predicate StableOnTies<T(!new)>(engine: (seq<T>, (T, T) -> int) -> seq<T>) {
    forall s: seq<T>, c: (T, T) -> int | (forall a: T, b: T :: c(a, b) == 0) :: engine(s, c) == s
  }

  /** `s.find(p)`: the first element satisfying `p`, if any. */
  function Find<T>(s: seq<T>, p: T -> bool): (r: Option<T>)
    ensures r.None? <==> forall i :: 0 <= i < |s| ==> !p(s[i])
    ensures r.Some? ==> exists i :: 0 <= i < |s| && s[i] == r.value && p(s[i]) &&
                                    forall j :: 0 <= j < i ==> !p(s[j])
  {
    if s == [] then None
    else if p(s[0]) then Some(s[0])
    else
      var r := Find(s[1..], p);
      assert r.Some? ==> exists i :: 1 <= i < |s| && s[i] == r.value && p(s[i]) &&
                                     forall j :: 0 <= j < i ==> !p(s[j]) by {
        if r.Some? {
          var i :| 0 <= i < |s[1..]| && s[1..][i] == r.value && p(s[1..][i]) &&
                   forall j :: 0 <= j < i ==> !p(s[1..][j]);
          assert s[i + 1] == r.value && forall j :: 0 <= j < i + 1 ==> !p(s[j]);
        }
      }
      r
  }

  /** `s.some(p)`. */
  predicate Exists<T>(s: seq<T>, p: T -> bool) {
    exists i :: 0 <= i < |s| && p(s[i])
  }

  /** `s.map(f)`. */
  function Map<T, U>(s: seq<T>, f: T -> U): (r: seq<U>)
    ensures |r| == |s|
    ensures forall i :: 0 <= i < |s| ==> r[i] == f(s[i])
  {
    if s == [] then [] else [f(s[0])] + Map(s[1..], f)
  }

  /** Mapping distributes over concatenation. */
  lemma MapAppend<T, U>(a: seq<T>, b: seq<T>, f: T -> U)
    ensures Map(a + b, f) == Map(a, f) + Map(b, f)
  {
    assert forall i :: 0 <= i < |a + b| ==> (a + b)[i] == if i < |a| then a[i] else b[i - |a|];
  }
}
