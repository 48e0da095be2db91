/** The library sorts the source relies on: Python's `list.sort(key=...)`
    and JavaScript's `Array.prototype.sort` with a comparator of the form
    `(key(a) - key(b)) * order`.  Both are stable; this model is a stable
    insertion sort by an integer key. */
module Sorting {

  /** Integers in ascending order. */
  ghost predicate Ascending(s: seq<int>) {
    forall i, j :: 0 <= i < j < |s| ==> s[i] <= s[j]
  }

  ghost predicate SortedBy<T>(s: seq<T>, key: T -> int) {
    forall i, j :: 0 <= i < j < |s| ==> key(s[i]) <= key(s[j])
  }

  /** Inserts `x` in front of the first element whose key is not smaller
      than its own, so that `x` stays ahead of the elements with the same
      key. */
  function InsertByKey<T>(x: T, s: seq<T>, key: T -> int): (r: seq<T>)
    ensures |r| == |s| + 1
    ensures r[0] == x || (s != [] && r[0] == s[0])
  {
    if s == [] || key(x) <= key(s[0]) then [x] + s
    else [s[0]] + InsertByKey(x, s[1..], key)
  }

  lemma {:induction false} InsertSorted<T>(x: T, s: seq<T>, key: T -> int)
    requires SortedBy(s, key)
    ensures SortedBy(InsertByKey(x, s, key), key)
  {
    if s != [] && key(s[0]) < key(x) {
      InsertSorted(x, s[1..], key);
      var t := InsertByKey(x, s[1..], key);
      assert key(s[0]) <= key(t[0]);
    }
  }

  lemma {:induction false} InsertPermutes<T>(x: T, s: seq<T>, key: T -> int)
    ensures multiset(InsertByKey(x, s, key)) == multiset(s) + multiset{x}
  {
    if s != [] && key(s[0]) < key(x) {
      InsertPermutes(x, s[1..], key);
      assert s == [s[0]] + s[1..];
    }
  }

  /** Stable insertion sort: every element is inserted into the sorted
      rest of the list, ahead of the elements with the same key. */
  function SortByKey<T>(s: seq<T>, key: T -> int): (r: seq<T>)
    ensures |r| == |s|
  {
    if s == [] then [] else InsertByKey(s[0], SortByKey(s[1..], key), key)
  }

  /** The sort yields a sorted permutation of its input. */
  lemma {:induction false} SortSorted<T>(s: seq<T>, key: T -> int)
    ensures SortedBy(SortByKey(s, key), key)
    ensures multiset(SortByKey(s, key)) == multiset(s)
  {
    if s != [] {
      SortSorted(s[1..], key);
      InsertSorted(s[0], SortByKey(s[1..], key), key);
      InsertPermutes(s[0], SortByKey(s[1..], key), key);
      assert s == [s[0]] + s[1..];
    }
  }

  /** A list already in key order is left as it is: the sort is stable. */
  lemma {:induction false} SortSortedIsIdentity<T>(s: seq<T>, key: T -> int)
    requires SortedBy(s, key)
    ensures SortByKey(s, key) == s
  {
    if s != [] {
      assert SortedBy(s[1..], key);
      SortSortedIsIdentity(s[1..], key);
    }
  }
}
