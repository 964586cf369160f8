/** `sorted(comments, key=get_fork)`: a stable sort by a fork-valued key,
    and the filter-per-fork sequence it is equal to. The key function is a
    parameter, as it is in Python; the conversion passes `GetFork`. */
module ForkSort {
  import opened Comments

  /** Keys never decrease along `s`. */
  predicate SortedByKey<T>(s: seq<T>, key: T -> Fork) {
    forall i, j :: 0 <= i < j < |s| ==> key(s[i]).Rank() <= key(s[j]).Rank()
  }

  /** The elements of `s` whose key is `k`, in their order in `s`. */
  function Filter<T>(s: seq<T>, key: T -> Fork, k: Fork): (r: seq<T>)
    ensures |r| <= |s|
    ensures forall i :: 0 <= i < |r| ==> key(r[i]) == k
  {
    if s == [] then [] else (if key(s[0]) == k then [s[0]] else []) + Filter(s[1..], key, k)
  }

  /** Inserts `x` into `t` in front of the first element whose key is not
      below that of `x`; on a sorted `t`, `x` lands in front of the
      elements of its own key that `t` already holds. */
  function Insert<T>(x: T, t: seq<T>, key: T -> Fork): (r: seq<T>)
    ensures |r| == |t| + 1
    ensures r[0] == x || (t != [] && r[0] == t[0])
  {
    if t == [] || key(x).Rank() <= key(t[0]).Rank() then [x] + t
    else [t[0]] + Insert(x, t[1..], key)
  }

  /** Inserting into a sorted sequence keeps it sorted and adds exactly
      `x`. */
  lemma {:induction false} InsertSorted<T>(x: T, t: seq<T>, key: T -> Fork)
    requires SortedByKey(t, key)
    ensures SortedByKey(Insert(x, t, key), key)
    ensures multiset(Insert(x, t, key)) == multiset{x} + multiset(t)
  {
    if t == [] || key(x).Rank() <= key(t[0]).Rank() {
      SortedCons(x, t, key);
    } else {
      SortedTail(t, key);
      InsertSorted(x, t[1..], key);
      SortedCons(t[0], Insert(x, t[1..], key), key);
      assert t == [t[0]] + t[1..];
    }
  }

  /** `x` joins the elements of its own key in front of them; the other
      forks' elements are untouched. */
  lemma {:induction false} InsertFilter<T>(x: T, t: seq<T>, key: T -> Fork, k: Fork)
    ensures Filter(Insert(x, t, key), key, k) == if key(x) == k then [x] + Filter(t, key, k) else Filter(t, key, k)
  {
    if t == [] || key(x).Rank() <= key(t[0]).Rank() {
      FilterCons(x, t, key, k);
    } else {
      var t0, t' := t[0], t[1..];
      var r' := Insert(x, t', key);
      assert Insert(x, t, key) == [t0] + r';
      InsertFilter(x, t', key, k);
      FilterCons(t0, r', key, k);
      FilterCons(t0, t', key, k);
      assert t == [t0] + t';
      assert key(t0) != key(x);
      if key(x) == k {
        assert Filter(Insert(x, t, key), key, k) == [] + ([x] + Filter(t', key, k));
        assert Filter(t, key, k) == [] + Filter(t', key, k);
      } else if key(t0) == k {
        assert Filter(Insert(x, t, key), key, k) == [t0] + Filter(t', key, k);
      } else {
        assert Filter(Insert(x, t, key), key, k) == [] + Filter(t', key, k);
      }
    }
  }

  /** Python's stable `sorted` by key, as an insertion sort: each element
      is inserted into the sorted rest in front of the elements of its own
      key, which keeps equal keys in input order. */
  function StableSort<T>(s: seq<T>, key: T -> Fork): (r: seq<T>)
    ensures |r| == |s|
  {
    if s == [] then [] else Insert(s[0], StableSort(s[1..], key), key)
  }

  /** What makes the sort stable: the result is sorted by key, for every
      fork the elements with that key appear in it in their input order,
      and it is a permutation of the input. */
  lemma {:induction false} StableSortSpec<T>(s: seq<T>, key: T -> Fork)
    ensures SortedByKey(StableSort(s, key), key)
    ensures forall k :: Filter(StableSort(s, key), key, k) == Filter(s, key, k)
    ensures multiset(StableSort(s, key)) == multiset(s)
  {
    if s != [] {
      var r' := StableSort(s[1..], key);
      StableSortSpec(s[1..], key);
      InsertSorted(s[0], r', key);
      assert [s[0]] + s[1..] == s;
      forall k ensures Filter(Insert(s[0], r', key), key, k) == Filter(s, key, k) {
        FilterCons(s[0], s[1..], key, k);
        InsertFilter(s[0], r', key, k);
      }
    }
  }

  /** The easy elements, then the main ones, then the owner ones, each
      group in input order. */
  function ByFork<T>(s: seq<T>, key: T -> Fork): seq<T> {
    Filter(s, key, Easy) + Filter(s, key, Main) + Filter(s, key, Owner)
  }

  lemma SortedTail<T>(t: seq<T>, key: T -> Fork)
    requires t != [] && SortedByKey(t, key)
    ensures SortedByKey(t[1..], key)
    ensures forall i :: 0 <= i < |t[1..]| ==> key(t[0]).Rank() <= key(t[1..][i]).Rank()
  {
  }

  lemma SortedCons<T>(y: T, u: seq<T>, key: T -> Fork)
    requires SortedByKey(u, key)
    requires u == [] || key(y).Rank() <= key(u[0]).Rank()
    ensures SortedByKey([y] + u, key)
  {
  }

  /** The filters of a sequence with `x` in front: `x` joins the filter
      of its own fork only. */
  lemma FilterCons<T>(x: T, s: seq<T>, key: T -> Fork, k: Fork)
    ensures Filter([x] + s, key, k) == (if key(x) == k then [x] else []) + Filter(s, key, k)
  {
  }

  lemma {:induction false} FilterNone<T>(s: seq<T>, key: T -> Fork, k: Fork)
    requires forall i :: 0 <= i < |s| ==> key(s[i]) != k
    ensures Filter(s, key, k) == []
  {
    if s != [] {
      FilterNone(s[1..], key, k);
    }
  }

  lemma {:induction false} FilterAll<T>(s: seq<T>, key: T -> Fork, k: Fork)
    requires forall i :: 0 <= i < |s| ==> key(s[i]) == k
    ensures Filter(s, key, k) == s
  {
    if s != [] {
      FilterAll(s[1..], key, k);
    }
  }

  /** An element is kept by the filter for `k` exactly when it is in `s`
      and its key is `k`. */
  lemma {:induction false} FilterMembership<T>(s: seq<T>, key: T -> Fork, k: Fork, x: T)
    ensures x in Filter(s, key, k) <==> x in s && key(x) == k
  {
    if s != [] {
      FilterMembership(s[1..], key, k, x);
      assert s == [s[0]] + s[1..];
    }
  }

  /** When no key of `s` ranks below that of `x`, `s` has no element of
      a fork ranked below `x`'s. */
  lemma FilterBelow<T>(x: T, s: seq<T>, key: T -> Fork, k: Fork)
    requires forall i :: 0 <= i < |s| ==> key(x).Rank() <= key(s[i]).Rank()
    requires k.Rank() < key(x).Rank()
    ensures Filter(s, key, k) == []
  {
    FilterNone(s, key, k);
  }

  /** Putting in front an element whose key is not above any other key
      puts it in front of the per-fork concatenation too. */
  lemma ByForkCons<T>(x: T, s: seq<T>, key: T -> Fork)
    requires forall i :: 0 <= i < |s| ==> key(x).Rank() <= key(s[i]).Rank()
    ensures ByFork([x] + s, key) == [x] + ByFork(s, key)
  {
    var e, m, o := Filter(s, key, Easy), Filter(s, key, Main), Filter(s, key, Owner);
    FilterCons(x, s, key, Easy);
    FilterCons(x, s, key, Main);
    FilterCons(x, s, key, Owner);
    match key(x)
    case Easy =>
      assert ByFork([x] + s, key) == ([x] + e) + m + o;
    case Main =>
      FilterBelow(x, s, key, Easy);
      assert ByFork([x] + s, key) == [] + ([x] + m) + o;
    case Owner =>
      FilterBelow(x, s, key, Easy);
      FilterBelow(x, s, key, Main);
      assert ByFork([x] + s, key) == [] + [] + ([x] + o);
  }

  /** A sequence sorted by key is its easy, main and owner elements in
      that order. */
  lemma {:induction false} SortedIsByFork<T>(t: seq<T>, key: T -> Fork)
    requires SortedByKey(t, key)
    ensures t == ByFork(t, key)
  {
    if t != [] {
      SortedTail(t, key);
      SortedIsByFork(t[1..], key);
      ByForkCons(t[0], t[1..], key);
      assert t == [t[0]] + t[1..];
    }
  }

  /** Sorting with Python's stable `sorted` gives the same sequence as
      concatenating the per-fork filters in rank order. */
  lemma StableSortIsByFork<T>(s: seq<T>, key: T -> Fork)
    ensures StableSort(s, key) == ByFork(s, key)
  {
    StableSortSpec(s, key);
    SortedIsByFork(StableSort(s, key), key);
  }

  /** A stable sort is unique: any sequence that is sorted by key and keeps
      every fork's elements in input order is `StableSort(s, key)`, so the
      sorting algorithm behind it does not matter. */
  lemma StableSortUnique<T>(s: seq<T>, t: seq<T>, key: T -> Fork)
    requires SortedByKey(t, key)
    requires forall k :: Filter(t, key, k) == Filter(s, key, k)
    ensures t == StableSort(s, key)
  {
    SortedIsByFork(t, key);
    StableSortIsByFork(s, key);
  }

  /** The per-fork concatenation neither loses nor duplicates an element. */
  lemma ByForkIsPermutation<T>(s: seq<T>, key: T -> Fork)
    ensures multiset(ByFork(s, key)) == multiset(s)
  {
    StableSortSpec(s, key);
    StableSortIsByFork(s, key);
  }
}
