/** The merge-sort visualiser's algorithm: a top-down merge sort that
    alternates between the array being sorted and an auxiliary copy of it
    ("ping-pong"), so that each merge reads two sorted halves from one
    buffer and writes the merged run into the other.  Every step is
    recorded as an animation event; the player writes the value of every
    overwrite event into the displayed array. */
module MergeSort {
  import opened Sorting

  /** Animation events. */
  datatype Anim =
    | MergeRange(lo: int, hi: int)
    | Compare(i: int, j: int)
    | Overwrite(index: int, value: int, sorted: bool)
    | MarkSorted(lo: int, hi: int)
    | EndMerge

  /** The numbers of the visualiser are their own sort key. */
  function Id(x: int): int { x }

  lemma SortedById(s: seq<int>)
    requires SortedBy(s, Id)
    ensures Ascending(s)
  {
    forall i, j | 0 <= i < j < |s| ensures s[i] <= s[j] {
      assert Id(s[i]) <= Id(s[j]);
    }
  }

  /** Two sorted runs of integers with the same elements start alike. */
  lemma AscendingHeads(x: seq<int>, y: seq<int>)
    requires Ascending(x) && Ascending(y) && x != [] && y != []
    requires multiset(x) == multiset(y)
    ensures x[0] == y[0]
  {
    assert x[0] <= y[0] by {
      assert y[0] in multiset(x);
      var j :| 0 <= j < |x| && x[j] == y[0];
      assert j == 0 || x[0] <= x[j];
    }
    assert y[0] <= x[0] by {
      assert x[0] in multiset(y);
      var i :| 0 <= i < |y| && y[i] == x[0];
      assert i == 0 || y[0] <= y[i];
    }
  }

  /** Taking an equal head off two runs with the same elements. */
  lemma MultisetTails(x: seq<int>, y: seq<int>)
    requires x != [] && y != [] && x[0] == y[0] && multiset(x) == multiset(y)
    ensures multiset(x[1..]) == multiset(y[1..])
  {
    assert x == [x[0]] + x[1..];
    assert y == [y[0]] + y[1..];
    assert multiset(x[1..]) == multiset(x) - multiset{x[0]};
    assert multiset(y[1..]) == multiset(y) - multiset{y[0]};
  }

  /** Two sorted runs of integers with the same elements are the same run. */
  lemma {:induction false} AscendingUnique(x: seq<int>, y: seq<int>)
    requires Ascending(x) && Ascending(y)
    requires multiset(x) == multiset(y)
    ensures x == y
  {
    assert |x| == |multiset(x)| == |multiset(y)| == |y|;
    if x != [] {
      AscendingHeads(x, y);
      MultisetTails(x, y);
      AscendingUnique(x[1..], y[1..]);
      assert x == [x[0]] + x[1..] && y == [y[0]] + y[1..];
    }
  }

  // ---------------------------------------------------------------------
  // The merge
  // ---------------------------------------------------------------------

  /** Merging two runs as `doMerge` does: while both runs have elements the
      smaller head is taken, the left one on a tie; then what is left of
      the left run, then what is left of the right run. */
  function Merge<T>(a: seq<T>, b: seq<T>, key: T -> int): (r: seq<T>)
    ensures |r| == |a| + |b|
    ensures r != [] ==> (a != [] && r[0] == a[0]) || (b != [] && r[0] == b[0])
    decreases |a| + |b|
  {
    if a == [] then b
    else if b == [] then a
    else if key(a[0]) <= key(b[0]) then [a[0]] + Merge(a[1..], b, key)
    else [b[0]] + Merge(a, b[1..], key)
  }

  /** Stability: merging two sorted runs, ties from the left, gives exactly
      what a stable sort of the left run followed by the right run gives. */
  lemma {:induction false} MergeIsStableSort<T>(a: seq<T>, b: seq<T>, key: T -> int)
    requires SortedBy(a, key) && SortedBy(b, key)
    ensures Merge(a, b, key) == SortByKey(a + b, key)
    decreases |a| + |b|
  {
    if a == [] {
      assert a + b == b;
      SortSortedIsIdentity(b, key);
    } else if b == [] {
      assert a + b == a;
      SortSortedIsIdentity(a, key);
    } else if key(a[0]) <= key(b[0]) {
      MergeIsStableSort(a[1..], b, key);
      StableLeft(a, b, key);
    } else {
      MergeIsStableSort(a[1..], b, key);
      MergeIsStableSort(a[1..], b[1..], key);
      MergeIsStableSort(a, b[1..], key);
      StableRight(a, b, key);
    }
  }

  /** The step of `MergeIsStableSort` that takes the left head. */
  lemma StableLeft<T>(a: seq<T>, b: seq<T>, key: T -> int)
    requires a != [] && b != [] && SortedBy(a, key) && SortedBy(b, key)
    requires key(a[0]) <= key(b[0])
    requires Merge(a[1..], b, key) == SortByKey(a[1..] + b, key)
    ensures Merge(a, b, key) == SortByKey(a + b, key)
  {
    var s := SortByKey(a[1..] + b, key);
    assert key(a[0]) <= key(s[0]) by {
      if a[1..] != [] && s[0] == a[1..][0] {
        assert s[0] == a[1];
        assert key(a[0]) <= key(a[1]);
      } else {
        assert s[0] == b[0];
      }
    }
    assert InsertByKey(a[0], s, key) == [a[0]] + s;
    UnfoldSort(a, b, key);
  }

  /** Sorting `a + b` inserts the head of `a` into the sorted rest. */
  lemma UnfoldSort<T>(a: seq<T>, b: seq<T>, key: T -> int)
    requires a != []
    ensures SortByKey(a + b, key) == InsertByKey(a[0], SortByKey(a[1..] + b, key), key)
  {
    assert (a + b)[0] == a[0] && (a + b)[1..] == a[1..] + b;
  }

  /** The step of `MergeIsStableSort` that takes the right head. */
  lemma StableRight<T>(a: seq<T>, b: seq<T>, key: T -> int)
    requires a != [] && b != [] && SortedBy(a, key) && SortedBy(b, key)
    requires key(b[0]) < key(a[0])
    requires Merge(a[1..], b, key) == SortByKey(a[1..] + b, key)
    requires Merge(a[1..], b[1..], key) == SortByKey(a[1..] + b[1..], key)
    requires Merge(a, b[1..], key) == SortByKey(a + b[1..], key)
    ensures Merge(a, b, key) == SortByKey(a + b, key)
  {
    var m := Merge(a[1..], b[1..], key);
    RightHeadFirst(a, b, key);
    InsertAfterSmaller(a[0], b[0], m, key);
    UnfoldSort(a, b, key);
    UnfoldSort(a, b[1..], key);
  }

  /** When the right head is smaller than the left head, it also comes
      first in the merge of the left tail with the right run. */
  lemma RightHeadFirst<T>(a: seq<T>, b: seq<T>, key: T -> int)
    requires a != [] && b != [] && SortedBy(a, key) && key(b[0]) < key(a[0])
    ensures Merge(a[1..], b, key) == [b[0]] + Merge(a[1..], b[1..], key)
  {
    if a[1..] != [] {
      assert key(a[0]) <= key(a[1..][0]);
    }
  }

  /** Inserting behind a smaller head keeps that head in front. */
  lemma InsertAfterSmaller<T>(x: T, y: T, m: seq<T>, key: T -> int)
    requires key(y) < key(x)
    ensures InsertByKey(x, [y] + m, key) == [y] + InsertByKey(x, m, key)
  {
    assert ([y] + m)[1..] == m;
  }

  /** A merge of two sorted runs is a sorted permutation of both. */
  lemma MergeSorted<T>(a: seq<T>, b: seq<T>, key: T -> int)
    requires SortedBy(a, key) && SortedBy(b, key)
    ensures SortedBy(Merge(a, b, key), key)
    ensures multiset(Merge(a, b, key)) == multiset(a) + multiset(b)
  {
    MergeIsStableSort(a, b, key);
    SortSorted(a + b, key);
  }

  // ---------------------------------------------------------------------
  // Events and their replay
  // ---------------------------------------------------------------------

  /** The indices an event names lie within `[lo, hi]`. */
  predicate Within(e: Anim, lo: int, hi: int) {
    match e
    case MergeRange(l, h) => lo <= l && h <= hi
    case Compare(i, j) => lo <= i <= hi && lo <= j <= hi
    case Overwrite(k, _, _) => lo <= k <= hi
    case MarkSorted(l, h) => lo <= l && h <= hi
    case EndMerge => true
  }

  ghost predicate IndicesWithin(events: seq<Anim>, lo: int, hi: int) {
    forall x :: 0 <= x < |events| ==> Within(events[x], lo, hi)
  }

  lemma IndicesWithinWiden(events: seq<Anim>, lo: int, hi: int, lo': int, hi': int)
    requires IndicesWithin(events, lo, hi) && lo' <= lo && hi <= hi'
    ensures IndicesWithin(events, lo', hi')
  {
    forall x | 0 <= x < |events| ensures Within(events[x], lo', hi') {
      assert Within(events[x], lo, hi);
    }
  }

  /** The number of mark-sorted events. */
  function MarkCount(events: seq<Anim>): (r: nat)
    ensures r <= |events|
  {
    if events == [] then 0
    else MarkCount(events[..|events| - 1]) + if events[|events| - 1].MarkSorted? then 1 else 0
  }

  lemma {:induction false} MarkCountAppend(e1: seq<Anim>, e2: seq<Anim>)
    ensures MarkCount(e1 + e2) == MarkCount(e1) + MarkCount(e2)
  {
    if e2 == [] {
      assert e1 + e2 == e1;
    } else {
      assert (e1 + e2)[..|e1 + e2| - 1] == e1 + e2[..|e2| - 1];
      MarkCountAppend(e1, e2[..|e2| - 1]);
    }
  }

  /** The (index, value, sorted flag) of every overwrite event, in order. */
  function Overwrites(events: seq<Anim>): (r: seq<(int, int, bool)>)
    ensures |r| <= |events|
  {
    if events == [] then []
    else
      var e := events[|events| - 1];
      Overwrites(events[..|events| - 1]) + if e.Overwrite? then [(e.index, e.value, e.sorted)] else []
  }

  /** `w` writes `vals` to the consecutive indices from `lo` on, and flags
      as sorted exactly the write at index `hi`. */
  ghost predicate WritesRun(w: seq<(int, int, bool)>, lo: int, vals: seq<int>, hi: int) {
    |w| == |vals| && forall q {:trigger w[q]} :: 0 <= q < |w| ==> w[q].0 == lo + q && w[q].1 == vals[q] && w[q].2 == LastWrite(lo + q, hi)
  }

  /** What the player does with one event: an overwrite stores its value,
      every other event only changes colours. */
  function Apply(s: seq<int>, e: Anim): (r: seq<int>)
    ensures |r| == |s|
  {
    if e.Overwrite? && 0 <= e.index < |s| then s[e.index := e.value] else s
  }

  /** Replaying `events` in order on `s`. */
  function Replay(s: seq<int>, events: seq<Anim>): (r: seq<int>)
    ensures |r| == |s|
  {
    if events == [] then s else Apply(Replay(s, events[..|events| - 1]), events[|events| - 1])
  }

  lemma {:induction false} ReplayAppend(s: seq<int>, e1: seq<Anim>, e2: seq<Anim>)
    ensures Replay(s, e1 + e2) == Replay(Replay(s, e1), e2)
  {
    if e2 == [] {
      assert e1 + e2 == e1;
    } else {
      assert (e1 + e2)[..|e1 + e2| - 1] == e1 + e2[..|e2| - 1];
      ReplayAppend(s, e1, e2[..|e2| - 1]);
    }
  }

  /** Dropping a last event that is an overwrite drops the last write of the run. */
  lemma WritesRunDropWrite(events: seq<Anim>, lo: int, vals: seq<int>, hi: int)
    requires events != [] && events[|events| - 1].Overwrite?
    requires WritesRun(Overwrites(events), lo, vals, hi)
    ensures |vals| >= 1 && WritesRun(Overwrites(events[..|events| - 1]), lo, vals[..|vals| - 1], hi)
    ensures events[|events| - 1].index == lo + |vals| - 1 && events[|events| - 1].value == vals[|vals| - 1]
  {
    var w := Overwrites(events);
    var n := |vals| - 1;
    assert w == Overwrites(events[..|events| - 1]) + [w[n]];
    assert Overwrites(events[..|events| - 1]) == w[..n];
  }

  /** Dropping a last event that is not an overwrite leaves the run as it is. */
  lemma WritesRunDropOther(events: seq<Anim>, lo: int, vals: seq<int>, hi: int)
    requires events != [] && !events[|events| - 1].Overwrite?
    requires WritesRun(Overwrites(events), lo, vals, hi)
    ensures WritesRun(Overwrites(events[..|events| - 1]), lo, vals, hi)
  {
    OverwritesDropOther(events);
  }

  lemma OverwritesDropOther(events: seq<Anim>)
    requires events != [] && !events[|events| - 1].Overwrite?
    ensures Overwrites(events[..|events| - 1]) == Overwrites(events)
  {
    assert Overwrites(events) == Overwrites(events[..|events| - 1]) + [];
  }

  /** Writing the next value of the run just after its prefix. */
  lemma SpliceNext(t: seq<int>, lo: int, vals: seq<int>)
    requires 0 <= lo && 1 <= |vals| && lo + |vals| <= |t|
    ensures (t[..lo] + vals[..|vals| - 1] + t[lo + |vals| - 1..])[lo + |vals| - 1 := vals[|vals| - 1]] == t[..lo] + vals + t[lo + |vals|..]
  {
  }

  /** Events whose overwrites store `vals` at `lo`, `lo + 1`, ... turn any
      array into one holding `vals` there and nothing else changed. */
  lemma {:induction false} ReplayRun(t: seq<int>, events: seq<Anim>, lo: int, vals: seq<int>, hi: int)
    requires WritesRun(Overwrites(events), lo, vals, hi)
    requires 0 <= lo && lo + |vals| <= |t|
    ensures Replay(t, events) == t[..lo] + vals + t[lo + |vals|..]
  {
    if events == [] {
      assert vals == [];
    } else if events[|events| - 1].Overwrite? {
      WritesRunDropWrite(events, lo, vals, hi);
      ReplayRun(t, events[..|events| - 1], lo, vals[..|vals| - 1], hi);
      SpliceNext(t, lo, vals);
    } else {
      WritesRunDropOther(events, lo, vals, hi);
      ReplayRun(t, events[..|events| - 1], lo, vals, hi);
    }
  }

  /** Replaying `events` on any array leaves `vals` at `[lo, lo + |vals|)`. */
  ghost predicate ReplayLeaves(events: seq<Anim>, lo: int, vals: seq<int>) {
    forall t: seq<int> {:trigger Replay(t, events)} :: 0 <= lo && lo + |vals| <= |t| ==> Replay(t, events)[lo..lo + |vals|] == vals
  }

  // ---------------------------------------------------------------------
  // doMerge, mergeSortHelper, getMergeSortAnimations
  // ---------------------------------------------------------------------

  /** One step of `doMerge`: the next output element is the left head. */
  lemma TakeLeft(x: seq<int>, mid: int, hi: int, i: int, j: int)
    requires 0 <= i <= mid < j <= hi + 1 <= |x|
    requires j > hi || x[i] <= x[j]
    ensures Merge(x[i..mid + 1], x[j..hi + 1], Id) == [x[i]] + Merge(x[i + 1..mid + 1], x[j..hi + 1], Id)
  {
    assert x[i..mid + 1][0] == x[i] && x[i..mid + 1][1..] == x[i + 1..mid + 1];
    assert j <= hi ==> x[j..hi + 1][0] == x[j];
  }

  /** One step of `doMerge`: the next output element is the right head. */
  lemma TakeRight(x: seq<int>, mid: int, hi: int, i: int, j: int)
    requires 0 <= i <= mid + 1 <= j <= hi < |x|
    requires i > mid || x[i] > x[j]
    ensures Merge(x[i..mid + 1], x[j..hi + 1], Id) == [x[j]] + Merge(x[i..mid + 1], x[j + 1..hi + 1], Id)
  {
    assert x[j..hi + 1][0] == x[j] && x[j..hi + 1][1..] == x[j + 1..hi + 1];
    assert i <= mid ==> x[i..mid + 1][0] == x[i];
  }

  /** The values `doMerge` writes from the loop state with next left
      index `i` and next right index `j` on, in the order it writes them. */
  function MergeValues(x: seq<int>, mid: int, hi: int, i: int, j: int): (r: seq<int>)
    requires 0 <= i <= mid + 1 <= j <= hi + 1 <= |x|
    ensures |r| == (mid + 1 - i) + (hi + 1 - j)
    decreases mid + hi + 2 - i - j
  {
    if i > mid && j > hi then []
    else if TakesLeft(x, mid, hi, i, j) then [x[i]] + MergeValues(x, mid, hi, i + 1, j)
    else [x[j]] + MergeValues(x, mid, hi, i, j + 1)
  }

  /** What `doMerge` writes is the merge of what is left of both runs. */
  lemma {:induction false} MergeValuesIsMerge(x: seq<int>, mid: int, hi: int, i: int, j: int)
    requires 0 <= i <= mid + 1 <= j <= hi + 1 <= |x|
    ensures MergeValues(x, mid, hi, i, j) == Merge(x[i..mid + 1], x[j..hi + 1], Id)
    decreases mid + hi + 2 - i - j
  {
    if i > mid && j > hi {
      assert x[i..mid + 1] == [] && x[j..hi + 1] == [];
    } else if TakesLeft(x, mid, hi, i, j) {
      MergeValuesIsMerge(x, mid, hi, i + 1, j);
      TakeLeft(x, mid, hi, i, j);
    } else {
      MergeValuesIsMerge(x, mid, hi, i, j + 1);
      TakeRight(x, mid, hi, i, j);
    }
  }

  /** The loop state of `doMerge`: `out`, the values written to
      `main[lo..k)`, followed by what is still to be written, is all that
      the merge writes. */
  ghost predicate MergeState(x: seq<int>, lo: int, mid: int, hi: int, i: int, j: int, out: seq<int>) {
    0 <= lo <= i <= mid + 1 <= j <= hi + 1 <= |x| && |out| == i + j - mid - 1 - lo
    && out + MergeValues(x, mid, hi, i, j) == MergeValues(x, mid, hi, lo, mid + 1)
  }

  lemma StateLeft(x: seq<int>, lo: int, mid: int, hi: int, i: int, j: int, out: seq<int>)
    requires MergeState(x, lo, mid, hi, i, j, out) && i <= mid && (j > hi || x[i] <= x[j])
    ensures MergeState(x, lo, mid, hi, i + 1, j, out + [x[i]])
  {
    assert MergeValues(x, mid, hi, i, j) == [x[i]] + MergeValues(x, mid, hi, i + 1, j);
  }

  lemma StateRight(x: seq<int>, lo: int, mid: int, hi: int, i: int, j: int, out: seq<int>)
    requires MergeState(x, lo, mid, hi, i, j, out) && j <= hi && (i > mid || x[i] > x[j])
    ensures MergeState(x, lo, mid, hi, i, j + 1, out + [x[j]])
  {
    assert MergeValues(x, mid, hi, i, j) == [x[j]] + MergeValues(x, mid, hi, i, j + 1);
  }

  /** The sorted flag of an overwrite in the second and third loops of
      `doMerge`: the write lands on the last index of the range. */
  predicate LastWrite(k: int, hi: int) {
    k == hi
  }

  /** The sorted flag of an overwrite in the first loop of `doMerge`: the
      write lands on the last index while both runs are at their last
      element. */
  predicate LastPairWrite(k: int, hi: int, i: int, mid: int, j: int) {
    k == hi && i == mid && j == hi
  }

  /** Whether the step of `doMerge` at left index `i` and right index `j`
      takes the left head: the right run is used up, or the left head is
      no larger. */
  predicate TakesLeft(x: seq<int>, mid: int, hi: int, i: int, j: int)
    requires 0 <= i <= mid + 1 <= j <= hi + 1 <= |x|
  {
    i <= mid && (j > hi || x[i] <= x[j])
  }

  /** The compare and overwrite events of that step, writing index
      `i + j - mid - 1`; the sorted flag is computed as the source does in
      each of its three loops. */
  function StepEvents(x: seq<int>, mid: int, hi: int, i: int, j: int): (r: seq<Anim>)
    requires 0 <= i <= mid + 1 <= j <= hi + 1 <= |x| && (i <= mid || j <= hi)
  {
    var k := i + j - mid - 1;
    if i <= mid && j <= hi then
      [Compare(i, j), Overwrite(k, if x[i] <= x[j] then x[i] else x[j], LastPairWrite(k, hi, i, mid, j))]
    else if i <= mid then
      [Compare(i, i), Overwrite(k, x[i], LastWrite(k, hi))]
    else
      [Compare(j, j), Overwrite(k, x[j], LastWrite(k, hi))]
  }

  /** The events `doMerge` records from the loop state with next left
      index `i` and next right index `j` on. */
  function MergeTrace(x: seq<int>, mid: int, hi: int, i: int, j: int): (r: seq<Anim>)
    requires 0 <= i <= mid + 1 <= j <= hi + 1 <= |x|
    decreases mid + hi + 2 - i - j
  {
    if i > mid && j > hi then []
    else if TakesLeft(x, mid, hi, i, j) then StepEvents(x, mid, hi, i, j) + MergeTrace(x, mid, hi, i + 1, j)
    else StepEvents(x, mid, hi, i, j) + MergeTrace(x, mid, hi, i, j + 1)
  }

  lemma {:induction false} OverwritesAppend(e1: seq<Anim>, e2: seq<Anim>)
    ensures Overwrites(e1 + e2) == Overwrites(e1) + Overwrites(e2)
  {
    if e2 == [] {
      assert e1 + e2 == e1;
    } else {
      assert (e1 + e2)[..|e1 + e2| - 1] == e1 + e2[..|e2| - 1];
      OverwritesAppend(e1, e2[..|e2| - 1]);
    }
  }

  /** The two events of one step: a compare within `[i, hi]`, then an
      overwrite at `i + j - mid - 1` of the head `Merge` takes next,
      flagged exactly when it lands on `hi`. */
  lemma StepFacts(x: seq<int>, mid: int, hi: int, i: int, j: int)
    requires 0 <= i <= mid + 1 <= j <= hi + 1 <= |x| && (i <= mid || j <= hi)
    ensures var s := StepEvents(x, mid, hi, i, j);
      |s| == 2 && s[0].Compare? && Within(s[0], i, hi) && Within(s[1], i, hi)
      && s[1] == Overwrite(i + j - mid - 1, if TakesLeft(x, mid, hi, i, j) then x[i] else x[j], LastWrite(i + j - mid - 1, hi))
  {
  }

  /** The overwrites of a compare/overwrite pair followed by `rest`. */
  lemma WritesCons(s: seq<Anim>, rest: seq<Anim>, k: int, v: int, hi: int, vals: seq<int>)
    requires |s| == 2 && s[0].Compare? && s[1] == Overwrite(k, v, LastWrite(k, hi))
    requires WritesRun(Overwrites(rest), k + 1, vals, hi)
    ensures WritesRun(Overwrites(s + rest), k, [v] + vals, hi)
  {
    OverwritesAppend(s, rest);
    assert s[..1] == [s[0]] && [s[0]][..0] == [];
    assert Overwrites(s) == [(k, v, LastWrite(k, hi))];
  }

  /** A step that takes the left head writes it at `k` in front of the rest. */
  lemma WritesStepLeft(x: seq<int>, mid: int, hi: int, i: int, j: int, k: int)
    requires 0 <= i <= mid + 1 <= j <= hi + 1 <= |x| && TakesLeft(x, mid, hi, i, j) && k == i + j - mid - 1
    requires WritesRun(Overwrites(MergeTrace(x, mid, hi, i + 1, j)), k + 1, MergeValues(x, mid, hi, i + 1, j), hi)
    ensures WritesRun(Overwrites(MergeTrace(x, mid, hi, i, j)), k, MergeValues(x, mid, hi, i, j), hi)
  {
    StepFacts(x, mid, hi, i, j);
    assert MergeTrace(x, mid, hi, i, j) == StepEvents(x, mid, hi, i, j) + MergeTrace(x, mid, hi, i + 1, j);
    WritesCons(StepEvents(x, mid, hi, i, j), MergeTrace(x, mid, hi, i + 1, j), k, x[i], hi, MergeValues(x, mid, hi, i + 1, j));
  }

  /** A step that takes the right head writes it at `k` in front of the rest. */
  lemma WritesStepRight(x: seq<int>, mid: int, hi: int, i: int, j: int, k: int)
    requires 0 <= i <= mid + 1 <= j <= hi < |x| && !TakesLeft(x, mid, hi, i, j) && k == i + j - mid - 1
    requires WritesRun(Overwrites(MergeTrace(x, mid, hi, i, j + 1)), k + 1, MergeValues(x, mid, hi, i, j + 1), hi)
    ensures WritesRun(Overwrites(MergeTrace(x, mid, hi, i, j)), k, MergeValues(x, mid, hi, i, j), hi)
  {
    StepFacts(x, mid, hi, i, j);
    assert MergeTrace(x, mid, hi, i, j) == StepEvents(x, mid, hi, i, j) + MergeTrace(x, mid, hi, i, j + 1);
    WritesCons(StepEvents(x, mid, hi, i, j), MergeTrace(x, mid, hi, i, j + 1), k, x[j], hi, MergeValues(x, mid, hi, i, j + 1));
  }

  /** One step of `doMerge` writes the head it takes at `k` in front of
      what the rest writes from the next state `(i', j')` on. */
  lemma WritesStep(x: seq<int>, mid: int, hi: int, i: int, j: int, k: int, i': int, j': int)
    requires 0 <= i <= mid + 1 <= j <= hi + 1 <= |x| && (i <= mid || j <= hi) && k == i + j - mid - 1
    requires (i', j') == if TakesLeft(x, mid, hi, i, j) then (i + 1, j) else (i, j + 1)
    requires WritesRun(Overwrites(MergeTrace(x, mid, hi, i', j')), k + 1, MergeValues(x, mid, hi, i', j'), hi)
    ensures WritesRun(Overwrites(MergeTrace(x, mid, hi, i, j)), k, MergeValues(x, mid, hi, i, j), hi)
  {
    if TakesLeft(x, mid, hi, i, j) {
      WritesStepLeft(x, mid, hi, i, j, k);
    } else {
      WritesStepRight(x, mid, hi, i, j, k);
    }
  }

  /** The overwrites `doMerge` records from the loop state `(i, j)` on
      write the values it merges to the consecutive indices from
      `k = i + j - mid - 1` on, flagging exactly the write at `hi`. */
  lemma {:induction false} TraceWritesMerge(x: seq<int>, mid: int, hi: int, i: int, j: int, k: int)
    requires 0 <= i <= mid + 1 <= j <= hi + 1 <= |x| && k == i + j - mid - 1
    ensures WritesRun(Overwrites(MergeTrace(x, mid, hi, i, j)), k, MergeValues(x, mid, hi, i, j), hi)
    decreases mid + hi + 2 - i - j
  {
    if i > mid && j > hi {
      assert MergeTrace(x, mid, hi, i, j) == [];
    } else {
      var (i', j') := if TakesLeft(x, mid, hi, i, j) then (i + 1, j) else (i, j + 1);
      TraceWritesMerge(x, mid, hi, i', j', k + 1);
      WritesStep(x, mid, hi, i, j, k, i', j');
    }
  }

  /** Events within `[lo, hi]` followed by events within `[lo, hi]`. */
  lemma WithinAppend(s: seq<Anim>, rest: seq<Anim>, lo: int, hi: int)
    requires IndicesWithin(s, lo, hi) && IndicesWithin(rest, lo, hi)
    ensures IndicesWithin(s + rest, lo, hi)
  {
    var t := s + rest;
    forall x | 0 <= x < |t| ensures Within(t[x], lo, hi) {
      if x >= |s| {
        assert t[x] == rest[x - |s|];
      } else {
        assert t[x] == s[x];
      }
    }
  }

  /** Every index the events `doMerge` records from the loop name lies
      within the merged range. */
  lemma {:induction false} TraceWithin(x: seq<int>, lo: int, mid: int, hi: int, i: int, j: int)
    requires 0 <= lo <= i <= mid + 1 <= j <= hi + 1 <= |x|
    ensures IndicesWithin(MergeTrace(x, mid, hi, i, j), lo, hi)
    decreases mid + hi + 2 - i - j
  {
    if i > mid && j > hi {
      assert MergeTrace(x, mid, hi, i, j) == [];
    } else {
      var s := StepEvents(x, mid, hi, i, j);
      StepFacts(x, mid, hi, i, j);
      assert IndicesWithin(s, lo, hi) by {
        assert Within(s[0], lo, hi) && Within(s[1], lo, hi);
      }
      if TakesLeft(x, mid, hi, i, j) {
        TraceWithin(x, lo, mid, hi, i + 1, j);
        WithinAppend(s, MergeTrace(x, mid, hi, i + 1, j), lo, hi);
      } else {
        TraceWithin(x, lo, mid, hi, i, j + 1);
        WithinAppend(s, MergeTrace(x, mid, hi, i, j + 1), lo, hi);
      }
    }
  }

  /** A compare/overwrite pair followed by `rest` has the marks of `rest`. */
  lemma NoMarksCons(s: seq<Anim>, rest: seq<Anim>)
    requires |s| == 2 && s[0].Compare? && s[1].Overwrite? && MarkCount(rest) == 0
    ensures MarkCount(s + rest) == 0
  {
    MarkCountAppend(s, rest);
    assert s[..1] == [s[0]] && [s[0]][..0] == [];
  }

  /** None of the events `doMerge` records from the loop is a mark-sorted event. */
  lemma {:induction false} TraceNoMarks(x: seq<int>, mid: int, hi: int, i: int, j: int)
    requires 0 <= i <= mid + 1 <= j <= hi + 1 <= |x|
    ensures MarkCount(MergeTrace(x, mid, hi, i, j)) == 0
    decreases mid + hi + 2 - i - j
  {
    if i > mid && j > hi {
      assert MergeTrace(x, mid, hi, i, j) == [];
    } else {
      StepFacts(x, mid, hi, i, j);
      if TakesLeft(x, mid, hi, i, j) {
        TraceNoMarks(x, mid, hi, i + 1, j);
        NoMarksCons(StepEvents(x, mid, hi, i, j), MergeTrace(x, mid, hi, i + 1, j));
      } else {
        TraceNoMarks(x, mid, hi, i, j + 1);
        NoMarksCons(StepEvents(x, mid, hi, i, j), MergeTrace(x, mid, hi, i, j + 1));
      }
    }
  }

  /** `m` with `out` written from index `lo` on. */
  function Splice(m: seq<int>, lo: int, out: seq<int>): (r: seq<int>)
    requires 0 <= lo && lo + |out| <= |m|
    ensures |r| == |m|
  {
    m[..lo] + out + m[lo + |out|..]
  }

  /** What `Splice` leaves: `out` over its range and `m` everywhere else. */
  lemma SpliceFrame(m: seq<int>, lo: int, out: seq<int>)
    requires 0 <= lo && lo + |out| <= |m|
    ensures Splice(m, lo, out)[lo..lo + |out|] == out
    ensures SameOutside(Splice(m, lo, out), m, lo, lo + |out| - 1)
  {
    var r := Splice(m, lo, out);
    assert r[..lo] == m[..lo];
    assert r[lo + |out|..] == m[lo + |out|..];
  }

  lemma SpliceStep(m: seq<int>, lo: int, out: seq<int>, v: int)
    requires 0 <= lo && lo + |out| < |m|
    ensures Splice(m, lo, out)[lo + |out| := v] == Splice(m, lo, out + [v])
  {
  }

  /** Recording the pair `p` that the remaining trace `t` starts with. */
  lemma Shift(e: seq<Anim>, t: seq<Anim>, p: seq<Anim>, t': seq<Anim>, full: seq<Anim>)
    requires e + t == full && t == p + t'
    ensures (e + p) + t' == full
  {
  }

  lemma TraceBothLeft(x: seq<int>, mid: int, hi: int, i: int, j: int, k: int)
    requires 0 <= i <= mid < j <= hi < |x| && x[i] <= x[j] && k == i + j - mid - 1
    ensures MergeTrace(x, mid, hi, i, j) == [Compare(i, j), Overwrite(k, x[i], LastPairWrite(k, hi, i, mid, j))] + MergeTrace(x, mid, hi, i + 1, j)
  {
  }

  lemma TraceBothRight(x: seq<int>, mid: int, hi: int, i: int, j: int, k: int)
    requires 0 <= i <= mid < j <= hi < |x| && x[i] > x[j] && k == i + j - mid - 1
    ensures MergeTrace(x, mid, hi, i, j) == [Compare(i, j), Overwrite(k, x[j], LastPairWrite(k, hi, i, mid, j))] + MergeTrace(x, mid, hi, i, j + 1)
  {
  }

  lemma TraceRestLeft(x: seq<int>, mid: int, hi: int, i: int, j: int, k: int)
    requires 0 <= i <= mid < j == hi + 1 <= |x| && k == i + j - mid - 1
    ensures MergeTrace(x, mid, hi, i, j) == [Compare(i, i), Overwrite(k, x[i], LastWrite(k, hi))] + MergeTrace(x, mid, hi, i + 1, j)
  {
  }

  lemma TraceRestRight(x: seq<int>, mid: int, hi: int, i: int, j: int, k: int)
    requires 0 <= i == mid + 1 <= j <= hi < |x| && k == i + j - mid - 1
    ensures MergeTrace(x, mid, hi, i, j) == [Compare(j, j), Overwrite(k, x[j], LastWrite(k, hi))] + MergeTrace(x, mid, hi, i, j + 1)
  {
  }

  /** `doMerge`: merges the sorted runs `aux[lo..mid]` and `aux[mid+1..hi]`
      into `main[lo..hi]`, recording merge-range, the compare/overwrite
      pairs of `MergeTrace`, mark-sorted when the merge covers the whole
      array, and end-merge. */
  method DoMerge(main: array<int>, lo: int, mid: int, hi: int, aux: array<int>) returns (events: seq<Anim>)
    requires main != aux && main.Length == aux.Length
    requires 0 <= lo <= mid < hi < main.Length
    modifies main
    ensures aux[..] == old(aux[..])
    ensures main[..] == Splice(old(main[..]), lo, Merge(old(aux[..])[lo..mid + 1], old(aux[..])[mid + 1..hi + 1], Id))
    ensures events == MergeEventsOf(old(aux[..]), lo, mid, hi)
  {
    ghost var x, m0 := aux[..], main[..];
    ghost var full := [MergeRange(lo, hi)] + MergeTrace(x, mid, hi, lo, mid + 1);
    events := [MergeRange(lo, hi)];
    DoMergeInit(main[..], x, m0, full, lo, mid, hi);
    var i, j, k;
    ghost var out;
    i, j, k, events, out := MergeBoth(main, lo, mid, hi, aux, x, m0, full, events);
    i, k, events, out := CopyLeft(main, lo, mid, hi, aux, x, m0, full, i, j, k, events, out);
    j, k, events, out := CopyRight(main, lo, mid, hi, aux, x, m0, full, i, j, k, events, out);
    DoMergeDone(main[..], x, m0, full, lo, mid, hi, i, j, k, events, out);
    if lo == 0 && hi == main.Length - 1 {
      events := events + [MarkSorted(lo, hi)];
    }
    events := events + [EndMerge];
  }

  /** The state before the first loop of `doMerge`. */
  lemma DoMergeInit(main: seq<int>, x: seq<int>, m0: seq<int>, full: seq<Anim>, lo: int, mid: int, hi: int)
    requires 0 <= lo <= mid < hi < |x| && main == m0 && |m0| == |x|
    requires full == [MergeRange(lo, hi)] + MergeTrace(x, mid, hi, lo, mid + 1)
    ensures LoopState(main, x, m0, full, lo, mid, hi, lo, mid + 1, lo, [MergeRange(lo, hi)], [])
  {
    assert [] + MergeValues(x, mid, hi, lo, mid + 1) == MergeValues(x, mid, hi, lo, mid + 1);
    assert main == Splice(m0, lo, []);
  }

  /** The state after the last loop of `doMerge`: everything merged. */
  lemma DoMergeDone(main: seq<int>, x: seq<int>, m0: seq<int>, full: seq<Anim>,
                    lo: int, mid: int, hi: int, i: int, j: int, k: int,
                    events: seq<Anim>, out: seq<int>)
    requires LoopState(main, x, m0, full, lo, mid, hi, i, j, k, events, out)
    requires i > mid && j > hi && mid < hi
    ensures main == Splice(m0, lo, Merge(x[lo..mid + 1], x[mid + 1..hi + 1], Id))
    ensures events == full
  {
    assert out == MergeValues(x, mid, hi, lo, mid + 1) by {
      assert out + [] == out;
    }
    MergeValuesIsMerge(x, mid, hi, lo, mid + 1);
    assert events + [] == events;
  }

  /** The loop state shared by the three loops of `doMerge`. */
  ghost predicate LoopState(main: seq<int>, x: seq<int>, m0: seq<int>, full: seq<Anim>,
                            lo: int, mid: int, hi: int, i: int, j: int, k: int,
                            events: seq<Anim>, out: seq<int>)
  {
    MergeState(x, lo, mid, hi, i, j, out) && k == lo + |out| && |m0| == |x|
    && events + MergeTrace(x, mid, hi, i, j) == full
    && main == Splice(m0, lo, out)
  }

  /** One step of the first loop when the left head is taken. */
  lemma StepLeft(main: seq<int>, x: seq<int>, m0: seq<int>, full: seq<Anim>,
                 lo: int, mid: int, hi: int, i: int, j: int, k: int,
                 events: seq<Anim>, out: seq<int>,
                 main': seq<int>, i': int, j': int, events': seq<Anim>, out': seq<int>)
    requires LoopState(main, x, m0, full, lo, mid, hi, i, j, k, events, out)
    requires i <= mid && j <= hi && x[i] <= x[j]
    requires main' == main[k := x[i]] && i' == i + 1 && j' == j && out' == out + [x[i]]
    requires events' == events + [Compare(i, j), Overwrite(k, x[i], LastPairWrite(k, hi, i, mid, j))]
    ensures LoopState(main', x, m0, full, lo, mid, hi, i', j', k + 1, events', out')
  {
    StateLeft(x, lo, mid, hi, i, j, out);
    TraceBothLeft(x, mid, hi, i, j, k);
    Shift(events, MergeTrace(x, mid, hi, i, j), [Compare(i, j), Overwrite(k, x[i], LastPairWrite(k, hi, i, mid, j))],
          MergeTrace(x, mid, hi, i + 1, j), full);
    SpliceStep(m0, lo, out, x[i]);
  }

  /** One step of the first loop when the right head is taken. */
  lemma StepRight(main: seq<int>, x: seq<int>, m0: seq<int>, full: seq<Anim>,
                  lo: int, mid: int, hi: int, i: int, j: int, k: int,
                  events: seq<Anim>, out: seq<int>,
                  main': seq<int>, i': int, j': int, events': seq<Anim>, out': seq<int>)
    requires LoopState(main, x, m0, full, lo, mid, hi, i, j, k, events, out)
    requires i <= mid && j <= hi && x[i] > x[j]
    requires main' == main[k := x[j]] && i' == i && j' == j + 1 && out' == out + [x[j]]
    requires events' == events + [Compare(i, j), Overwrite(k, x[j], LastPairWrite(k, hi, i, mid, j))]
    ensures LoopState(main', x, m0, full, lo, mid, hi, i', j', k + 1, events', out')
  {
    StateRight(x, lo, mid, hi, i, j, out);
    TraceBothRight(x, mid, hi, i, j, k);
    Shift(events, MergeTrace(x, mid, hi, i, j), [Compare(i, j), Overwrite(k, x[j], LastPairWrite(k, hi, i, mid, j))],
          MergeTrace(x, mid, hi, i, j + 1), full);
    SpliceStep(m0, lo, out, x[j]);
  }

  /** One step of the second loop: the left run's next element. */
  lemma StepRestLeft(main: seq<int>, x: seq<int>, m0: seq<int>, full: seq<Anim>,
                     lo: int, mid: int, hi: int, i: int, j: int, k: int,
                     events: seq<Anim>, out: seq<int>,
                     main': seq<int>, events': seq<Anim>, out': seq<int>)
    requires LoopState(main, x, m0, full, lo, mid, hi, i, j, k, events, out)
    requires i <= mid && j == hi + 1
    requires main' == main[k := x[i]] && out' == out + [x[i]]
    requires events' == events + [Compare(i, i), Overwrite(k, x[i], LastWrite(k, hi))]
    ensures LoopState(main', x, m0, full, lo, mid, hi, i + 1, j, k + 1, events', out')
  {
    StateLeft(x, lo, mid, hi, i, j, out);
    TraceRestLeft(x, mid, hi, i, j, k);
    Shift(events, MergeTrace(x, mid, hi, i, j), [Compare(i, i), Overwrite(k, x[i], LastWrite(k, hi))],
          MergeTrace(x, mid, hi, i + 1, j), full);
    SpliceStep(m0, lo, out, x[i]);
  }

  /** One step of the third loop: the right run's next element. */
  lemma StepRestRight(main: seq<int>, x: seq<int>, m0: seq<int>, full: seq<Anim>,
                      lo: int, mid: int, hi: int, i: int, j: int, k: int,
                      events: seq<Anim>, out: seq<int>,
                      main': seq<int>, events': seq<Anim>, out': seq<int>)
    requires LoopState(main, x, m0, full, lo, mid, hi, i, j, k, events, out)
    requires i == mid + 1 && j <= hi
    requires main' == main[k := x[j]] && out' == out + [x[j]]
    requires events' == events + [Compare(j, j), Overwrite(k, x[j], LastWrite(k, hi))]
    ensures LoopState(main', x, m0, full, lo, mid, hi, i, j + 1, k + 1, events', out')
  {
    StateRight(x, lo, mid, hi, i, j, out);
    TraceRestRight(x, mid, hi, i, j, k);
    Shift(events, MergeTrace(x, mid, hi, i, j), [Compare(j, j), Overwrite(k, x[j], LastWrite(k, hi))],
          MergeTrace(x, mid, hi, i, j + 1), full);
    SpliceStep(m0, lo, out, x[j]);
  }

  /** The first loop of `doMerge`: while both runs have elements, the
      smaller head is written, the left one on a tie. */
  method MergeBoth(main: array<int>, lo: int, mid: int, hi: int, aux: array<int>,
                   ghost x: seq<int>, ghost m0: seq<int>, ghost full: seq<Anim>, events0: seq<Anim>)
    returns (i: int, j: int, k: int, events: seq<Anim>, ghost out: seq<int>)
    requires main != aux && x == aux[..] && |m0| == |x|
    requires LoopState(main[..], x, m0, full, lo, mid, hi, lo, mid + 1, lo, events0, [])
    modifies main
    ensures LoopState(main[..], x, m0, full, lo, mid, hi, i, j, k, events, out)
    ensures i > mid || j > hi
  {
    i, j, k, events, out := lo, mid + 1, lo, events0, [];
    while i <= mid && j <= hi
      invariant x == aux[..]
      invariant LoopState(main[..], x, m0, full, lo, mid, hi, i, j, k, events, out)
      decreases mid + hi + 2 - i - j
    {
      var flag := LastPairWrite(k, hi, i, mid, j);
      ghost var (i0, j0, k0, events0, out0, main0) := (i, j, k, events, out, main[..]);
      if aux[i] <= aux[j] {
        var v := aux[i];
        events := events + [Compare(i, j), Overwrite(k, v, flag)];
        main[k] := v;
        out := out + [v];
        k, i := k + 1, i + 1;
        StepLeft(main0, x, m0, full, lo, mid, hi, i0, j0, k0, events0, out0, main[..], i, j, events, out);
      } else {
        var v := aux[j];
        events := events + [Compare(i, j), Overwrite(k, v, flag)];
        main[k] := v;
        out := out + [v];
        k, j := k + 1, j + 1;
        StepRight(main0, x, m0, full, lo, mid, hi, i0, j0, k0, events0, out0, main[..], i, j, events, out);
      }
    }
  }

  /** The second loop of `doMerge`: what is left of the left run. */
  method CopyLeft(main: array<int>, lo: int, mid: int, hi: int, aux: array<int>,
                  ghost x: seq<int>, ghost m0: seq<int>, ghost full: seq<Anim>,
                  i0: int, j: int, k0: int, events0: seq<Anim>, ghost out0: seq<int>)
    returns (i: int, k: int, events: seq<Anim>, ghost out: seq<int>)
    requires main != aux && x == aux[..]
    requires LoopState(main[..], x, m0, full, lo, mid, hi, i0, j, k0, events0, out0)
    requires i0 > mid || j > hi
    modifies main
    ensures LoopState(main[..], x, m0, full, lo, mid, hi, i, j, k, events, out)
    ensures i > mid
  {
    i, k, events, out := i0, k0, events0, out0;
    while i <= mid
      invariant x == aux[..]
      invariant LoopState(main[..], x, m0, full, lo, mid, hi, i, j, k, events, out)
      invariant i <= mid ==> j == hi + 1
      decreases mid - i
    {
      ghost var (k1, events1, out1, main1) := (k, events, out, main[..]);
      var v := aux[i];
      events := events + [Compare(i, i), Overwrite(k, v, LastWrite(k, hi))];
      main[k] := v;
      out := out + [v];
      StepRestLeft(main1, x, m0, full, lo, mid, hi, i, j, k1, events1, out1, main[..], events, out);
      k, i := k + 1, i + 1;
    }
  }

  /** The third loop of `doMerge`: what is left of the right run. */
  method CopyRight(main: array<int>, lo: int, mid: int, hi: int, aux: array<int>,
                   ghost x: seq<int>, ghost m0: seq<int>, ghost full: seq<Anim>,
                   i: int, j0: int, k0: int, events0: seq<Anim>, ghost out0: seq<int>)
    returns (j: int, k: int, events: seq<Anim>, ghost out: seq<int>)
    requires main != aux && x == aux[..]
    requires LoopState(main[..], x, m0, full, lo, mid, hi, i, j0, k0, events0, out0)
    requires i > mid
    modifies main
    ensures LoopState(main[..], x, m0, full, lo, mid, hi, i, j, k, events, out)
    ensures j > hi
  {
    j, k, events, out := j0, k0, events0, out0;
    while j <= hi
      invariant x == aux[..]
      invariant LoopState(main[..], x, m0, full, lo, mid, hi, i, j, k, events, out)
      decreases hi - j
    {
      ghost var (k1, events1, out1, main1) := (k, events, out, main[..]);
      var v := aux[j];
      events := events + [Compare(j, j), Overwrite(k, v, LastWrite(k, hi))];
      main[k] := v;
      out := out + [v];
      StepRestRight(main1, x, m0, full, lo, mid, hi, i, j, k1, events1, out1, main[..], events, out);
      k, j := k + 1, j + 1;
    }
  }

  /** The events one `doMerge` call records. */
  function MergeEventsOf(x: seq<int>, lo: int, mid: int, hi: int): (r: seq<Anim>)
    requires 0 <= lo <= mid < hi < |x|
    ensures |r| >= 2 && r[0] == MergeRange(lo, hi) && r[|r| - 1] == EndMerge
  {
    [MergeRange(lo, hi)] + MergeTrace(x, mid, hi, lo, mid + 1)
    + (if lo == 0 && hi == |x| - 1 then [MarkSorted(lo, hi)] else []) + [EndMerge]
  }

  /** The events of one `doMerge` call name indices within its range. */
  lemma MergeEventsWithin(x: seq<int>, lo: int, mid: int, hi: int)
    requires 0 <= lo <= mid < hi < |x|
    ensures IndicesWithin(MergeEventsOf(x, lo, mid, hi), lo, hi)
  {
    var trace := MergeTrace(x, mid, hi, lo, mid + 1);
    var mark: seq<Anim> := if lo == 0 && hi == |x| - 1 then [MarkSorted(lo, hi)] else [];
    TraceWithin(x, lo, mid, hi, lo, mid + 1);
    WithinAppend([MergeRange(lo, hi)], trace, lo, hi);
    WithinAppend([MergeRange(lo, hi)] + trace, mark, lo, hi);
    WithinAppend([MergeRange(lo, hi)] + trace + mark, [EndMerge], lo, hi);
  }

  /** They hold one mark-sorted event exactly when the range is the whole array. */
  lemma MergeEventsMarks(x: seq<int>, lo: int, mid: int, hi: int)
    requires 0 <= lo <= mid < hi < |x|
    ensures MarkCount(MergeEventsOf(x, lo, mid, hi)) == if lo == 0 && hi == |x| - 1 then 1 else 0
  {
    var head, tail := [MergeRange(lo, hi)], [EndMerge];
    var trace := MergeTrace(x, mid, hi, lo, mid + 1);
    var mark: seq<Anim> := if lo == 0 && hi == |x| - 1 then [MarkSorted(lo, hi)] else [];
    TraceNoMarks(x, mid, hi, lo, mid + 1);
    MarkCountAppend(head, trace);
    MarkCountAppend(head + trace, mark);
    MarkCountAppend(head + trace + mark, tail);
    assert head[..0] == [] && tail[..0] == [];
    assert mark != [] ==> mark[..0] == [];
  }

  lemma OverwritesSingle(e: Anim)
    requires !e.Overwrite?
    ensures Overwrites([e]) == []
  {
    assert [e][..0] == [];
  }

  /** Events around `trace` that overwrite nothing leave its overwrites as they are. */
  lemma OverwritesFrame(head: seq<Anim>, trace: seq<Anim>, mark: seq<Anim>, tail: seq<Anim>)
    requires Overwrites(head) == [] && Overwrites(mark) == [] && Overwrites(tail) == []
    ensures Overwrites(head + trace + mark + tail) == Overwrites(trace)
  {
    OverwritesAppend(head, trace);
    OverwritesAppend(head + trace, mark);
    OverwritesAppend(head + trace + mark, tail);
    assert [] + Overwrites(trace) + [] + [] == Overwrites(trace);
  }

  /** The only overwrites among them are those of the trace. */
  lemma MergeEventsOverwrites(x: seq<int>, lo: int, mid: int, hi: int)
    requires 0 <= lo <= mid < hi < |x|
    ensures Overwrites(MergeEventsOf(x, lo, mid, hi)) == Overwrites(MergeTrace(x, mid, hi, lo, mid + 1))
  {
    var head, tail := [MergeRange(lo, hi)], [EndMerge];
    var trace := MergeTrace(x, mid, hi, lo, mid + 1);
    var mark: seq<Anim> := if lo == 0 && hi == |x| - 1 then [MarkSorted(lo, hi)] else [];
    OverwritesSingle(MergeRange(lo, hi));
    OverwritesSingle(EndMerge);
    if mark != [] {
      OverwritesSingle(MarkSorted(lo, hi));
    }
    OverwritesFrame(head, trace, mark, tail);
  }

  /** Their overwrites write the merge of both runs over the range. */
  lemma MergeEventsWrite(x: seq<int>, lo: int, mid: int, hi: int)
    requires 0 <= lo <= mid < hi < |x|
    ensures WritesRun(Overwrites(MergeEventsOf(x, lo, mid, hi)), lo, MergeValues(x, mid, hi, lo, mid + 1), hi)
  {
    TraceWritesMerge(x, mid, hi, lo, mid + 1, lo);
    MergeEventsOverwrites(x, lo, mid, hi);
  }

  /** Merging the sorted halves of `l + r` is sorting `l + r`. */
  lemma MergeOfSortedHalves(l: seq<int>, r: seq<int>)
    ensures Merge(SortByKey(l, Id), SortByKey(r, Id), Id) == SortByKey(l + r, Id)
  {
    var sl, sr := SortByKey(l, Id), SortByKey(r, Id);
    SortSorted(l, Id);
    SortSorted(r, Id);
    SortSorted(l + r, Id);
    MergeSorted(sl, sr, Id);
    SortedById(Merge(sl, sr, Id));
    SortedById(SortByKey(l + r, Id));
    AscendingUnique(Merge(sl, sr, Id), SortByKey(l + r, Id));
  }

  /** Events that end with a run of writes of `vals` over `[lo, hi]` leave
      `vals` there, whatever the earlier events did. */
  lemma ReplayEndsWith(before: seq<Anim>, merged: seq<Anim>, lo: int, hi: int, vals: seq<int>)
    requires WritesRun(Overwrites(merged), lo, vals, hi) && |vals| == hi + 1 - lo && 0 <= lo
    ensures ReplayLeaves(before + merged, lo, vals)
  {
    forall t: seq<int> | lo + |vals| <= |t|
      ensures Replay(t, before + merged)[lo..lo + |vals|] == vals
    {
      ReplayAppend(t, before, merged);
      ReplayRun(Replay(t, before), merged, lo, vals, hi);
    }
  }

  /** The merge of the two sorted halves of a range leaves the sorted
      range there and nothing else changed. */
  lemma MergedHalves(m0: seq<int>, m1: seq<int>, x: seq<int>, lo: int, mid: int, hi: int, l: seq<int>, r: seq<int>)
    requires 0 <= lo <= mid < hi < |x| == |m0|
    requires x[lo..mid + 1] == SortByKey(l, Id) && x[mid + 1..hi + 1] == SortByKey(r, Id)
    requires m1 == Splice(m0, lo, Merge(x[lo..mid + 1], x[mid + 1..hi + 1], Id))
    ensures m1[lo..hi + 1] == SortByKey(l + r, Id) == MergeValues(x, mid, hi, lo, mid + 1)
    ensures SameOutside(m1, m0, lo, hi)
  {
    MergeOfSortedHalves(l, r);
    MergeValuesIsMerge(x, mid, hi, lo, mid + 1);
    SpliceFrame(m0, lo, Merge(x[lo..mid + 1], x[mid + 1..hi + 1], Id));
  }

  /** The events of both halves followed by those of their merge stay
      within the range, mark it sorted exactly when it is the whole array,
      and leave the merged values there. */
  lemma MergedEvents(left: seq<Anim>, right: seq<Anim>, x: seq<int>, lo: int, mid: int, hi: int)
    requires 0 <= lo <= mid < hi < |x|
    requires IndicesWithin(left, lo, mid) && IndicesWithin(right, mid + 1, hi)
    requires MarkCount(left) == 0 && MarkCount(right) == 0
    ensures IndicesWithin(left + right + MergeEventsOf(x, lo, mid, hi), lo, hi)
    ensures MarkCount(left + right + MergeEventsOf(x, lo, mid, hi)) == if lo == 0 && hi == |x| - 1 then 1 else 0
    ensures ReplayLeaves(left + right + MergeEventsOf(x, lo, mid, hi), lo, MergeValues(x, mid, hi, lo, mid + 1))
  {
    var merged := MergeEventsOf(x, lo, mid, hi);
    MergeEventsWithin(x, lo, mid, hi);
    MergeEventsMarks(x, lo, mid, hi);
    MergeEventsWrite(x, lo, mid, hi);
    ReplayEndsWith(left + right, merged, lo, hi, MergeValues(x, mid, hi, lo, mid + 1));
    IndicesWithinWiden(left, lo, mid, lo, hi);
    IndicesWithinWiden(right, mid + 1, hi, lo, hi);
    WithinAppend(left, right, lo, hi);
    WithinAppend(left + right, merged, lo, hi);
    MarkCountAppend(left, right);
    MarkCountAppend(left + right, merged);
  }

  /** `a` and `b` agree everywhere outside `[lo, hi]`. */
  ghost predicate SameOutside(a: seq<int>, b: seq<int>, lo: int, hi: int) {
    |a| == |b| && 0 <= lo <= hi + 1 <= |a| && a[..lo] == b[..lo] && a[hi + 1..] == b[hi + 1..]
  }

  lemma SameOutsideAt(a: seq<int>, b: seq<int>, lo: int, hi: int, y: int)
    requires SameOutside(a, b, lo, hi) && 0 <= y < |a| && !(lo <= y <= hi)
    ensures a[y] == b[y]
  {
    if y < lo {
      assert a[y] == a[..lo][y];
    } else {
      assert a[y] == a[hi + 1..][y - hi - 1];
    }
  }

  lemma SameOutsideSlice(a: seq<int>, b: seq<int>, lo: int, hi: int, i: int, j: int)
    requires SameOutside(a, b, lo, hi) && 0 <= i <= j <= |a| && (j <= lo || hi < i)
    ensures a[i..j] == b[i..j]
  {
    forall y | 0 <= y < j - i
      ensures a[i..j][y] == b[i..j][y]
    {
      SameOutsideAt(a, b, lo, hi, i + y);
    }
  }

  /** Changes inside `[lo, mid]`, then inside `[mid + 1, hi]`, then inside `[lo, hi]`. */
  lemma SameOutsideJoin(a0: seq<int>, a1: seq<int>, a2: seq<int>, a3: seq<int>, lo: int, mid: int, hi: int)
    requires lo <= mid < hi
    requires SameOutside(a1, a0, lo, mid) && SameOutside(a2, a1, mid + 1, hi) && SameOutside(a3, a2, lo, hi)
    ensures SameOutside(a3, a0, lo, hi)
  {
    SameOutsideSlice(a1, a0, lo, mid, 0, lo);
    SameOutsideSlice(a2, a1, mid + 1, hi, 0, lo);
    SameOutsideSlice(a1, a0, lo, mid, hi + 1, |a0|);
    SameOutsideSlice(a2, a1, mid + 1, hi, hi + 1, |a0|);
  }

  /** Where `m` and `a` agree over `[lo, hi]`, they agree over both halves. */
  lemma SplitRange(m: seq<int>, a: seq<int>, lo: int, mid: int, hi: int)
    requires 0 <= lo <= mid < hi < |m| == |a| && m[lo..hi + 1] == a[lo..hi + 1]
    ensures a[lo..mid + 1] == m[lo..mid + 1] && a[mid + 1..hi + 1] == m[mid + 1..hi + 1]
  {
    assert a[lo..mid + 1] == a[lo..hi + 1][..mid + 1 - lo];
    assert a[mid + 1..hi + 1] == a[lo..hi + 1][mid + 1 - lo..];
    assert m[lo..mid + 1] == m[lo..hi + 1][..mid + 1 - lo];
    assert m[mid + 1..hi + 1] == m[lo..hi + 1][mid + 1 - lo..];
  }

  /** What `mergeSortHelper` promises, from the arrays `m0` (sorted) and
      `a0` (scratch) on entry to `m` and `a` on return, with `events`
      recorded: `m` holds `[lo, hi]` sorted, nothing outside `[lo, hi]`
      changed in either array, the events name indices within the range
      and mark it sorted exactly when it is the whole array (and is more
      than one element), and replaying them leaves the sorted range. */
  ghost predicate HelperDone(m0: seq<int>, a0: seq<int>, m: seq<int>, a: seq<int>, lo: int, hi: int, events: seq<Anim>) {
    0 <= lo <= hi < |m0| && |m| == |m0| &&
    m[lo..hi + 1] == SortByKey(m0[lo..hi + 1], Id) &&
    SameOutside(m, m0, lo, hi) && SameOutside(a, a0, lo, hi) &&
    IndicesWithin(events, lo, hi) &&
    MarkCount(events) == (if lo < hi && lo == 0 && hi == |m0| - 1 then 1 else 0) &&
    (lo == hi ==> events == []) &&
    (lo < hi ==> ReplayLeaves(events, lo, m[lo..hi + 1]))
  }

  /** After the left half is sorted in `a1` (with `m1` as scratch), the right
      halves of both arrays still agree. */
  lemma RightHalvesAgree(m0: seq<int>, a0: seq<int>, m1: seq<int>, a1: seq<int>, lo: int, mid: int, hi: int, left: seq<Anim>)
    requires 0 <= lo <= mid < hi < |m0| == |a0| && m0[lo..hi + 1] == a0[lo..hi + 1]
    requires HelperDone(a0, m0, a1, m1, lo, mid, left)
    ensures a1[mid + 1..hi + 1] == m1[mid + 1..hi + 1]
  {
    SplitRange(m0, a0, lo, mid, hi);
    SameOutsideSlice(a1, a0, lo, mid, mid + 1, hi + 1);
    SameOutsideSlice(m1, m0, lo, mid, mid + 1, hi + 1);
  }

  /** The states `mergeSortHelper` passes through: `m0`, `a0` on entry; the
      left half sorted into `a1`; the right half sorted into `a2`; and the
      merge written back into `m3`.  Together they give its promise. */
  lemma HelperSteps(m0: seq<int>, a0: seq<int>, m1: seq<int>, a1: seq<int>, m2: seq<int>, a2: seq<int>, m3: seq<int>,
                    lo: int, mid: int, hi: int, left: seq<Anim>, right: seq<Anim>, merged: seq<Anim>)
    requires 0 <= lo <= mid < hi < |m0| == |a0| && m0[lo..hi + 1] == a0[lo..hi + 1]
    requires HelperDone(a0, m0, a1, m1, lo, mid, left)
    requires HelperDone(a1, m1, a2, m2, mid + 1, hi, right)
    requires m3 == Splice(m2, lo, Merge(a2[lo..mid + 1], a2[mid + 1..hi + 1], Id))
    requires merged == MergeEventsOf(a2, lo, mid, hi)
    ensures HelperDone(m0, a0, m3, a2, lo, hi, left + right + merged)
  {
    HelperValues(m0, a0, a1, a2, m2, m3, lo, mid, hi);
    HelperFrames(m0, a0, m1, a1, m2, a2, lo, mid, hi, Merge(a2[lo..mid + 1], a2[mid + 1..hi + 1], Id));
    MergedEvents(left, right, a2, lo, mid, hi);
  }

  /** The values part of `HelperSteps`: the merge of both sorted halves
      is the sorted range. */
  lemma HelperValues(m0: seq<int>, a0: seq<int>, a1: seq<int>, a2: seq<int>, m2: seq<int>, m3: seq<int>,
                     lo: int, mid: int, hi: int)
    requires 0 <= lo <= mid < hi < |m0| == |a0| == |m2| && m0[lo..hi + 1] == a0[lo..hi + 1]
    requires SameOutside(a1, a0, lo, mid) && a1[lo..mid + 1] == SortByKey(a0[lo..mid + 1], Id)
    requires SameOutside(a2, a1, mid + 1, hi) && a2[mid + 1..hi + 1] == SortByKey(a1[mid + 1..hi + 1], Id)
    requires m3 == Splice(m2, lo, Merge(a2[lo..mid + 1], a2[mid + 1..hi + 1], Id))
    ensures m3[lo..hi + 1] == SortByKey(m0[lo..hi + 1], Id) == MergeValues(a2, mid, hi, lo, mid + 1)
  {
    var l, r := m0[lo..mid + 1], m0[mid + 1..hi + 1];
    SplitRange(m0, a0, lo, mid, hi);
    assert m0[lo..hi + 1] == l + r;
    SameOutsideSlice(a1, a0, lo, mid, mid + 1, hi + 1);
    SameOutsideSlice(a2, a1, mid + 1, hi, lo, mid + 1);
    MergedHalves(m2, m3, a2, lo, mid, hi, l, r);
  }

  /** The frame part of `HelperSteps`: nothing outside the range changes. */
  lemma HelperFrames(m0: seq<int>, a0: seq<int>, m1: seq<int>, a1: seq<int>, m2: seq<int>, a2: seq<int>,
                     lo: int, mid: int, hi: int, out: seq<int>)
    requires 0 <= lo <= mid < hi < |m2| && |out| == hi + 1 - lo
    requires SameOutside(a1, a0, lo, mid) && SameOutside(m1, m0, lo, mid)
    requires SameOutside(a2, a1, mid + 1, hi) && SameOutside(m2, m1, mid + 1, hi)
    ensures SameOutside(Splice(m2, lo, out), m0, lo, hi) && SameOutside(a2, a0, lo, hi)
  {
    SpliceFrame(m2, lo, out);
    SameOutsideJoin(m0, m1, m2, Splice(m2, lo, out), lo, mid, hi);
    SameOutsideJoin(a0, a1, a2, a2, lo, mid, hi);
  }

  /** `mergeSortHelper(main, lo, hi, aux)`: sorts `main[lo..hi]` using
      `aux[lo..hi]`, which holds the same values on entry, as scratch
      space; both recursive calls sort into `aux`, and the merge writes
      back into `main`. */
  method MergeSortHelper(main: array<int>, lo: int, hi: int, aux: array<int>) returns (events: seq<Anim>)
    requires main != aux && main.Length == aux.Length
    requires 0 <= lo <= hi < main.Length
    requires main[lo..hi + 1] == aux[lo..hi + 1]
    modifies main, aux
    decreases hi - lo, 1
    ensures HelperDone(old(main[..]), old(aux[..]), main[..], aux[..], lo, hi, events)
  {
    if lo == hi {
      SortSortedIsIdentity(main[lo..hi + 1], Id);
      return [];
    }
    var mid := Middle(lo, hi);
    ghost var m0, a0 := main[..], aux[..];
    var left, right;
    ghost var m1, a1;
    left, right, m1, a1 := SortHalves(main, lo, mid, hi, aux);
    ghost var m2, a2 := main[..], aux[..];
    var merged := DoMerge(main, lo, mid, hi, aux);
    events := left + right + merged;
    HelperSteps(m0, a0, m1, a1, m2, a2, main[..], lo, mid, hi, left, right, merged);
  }

  /** The two recursive calls of `mergeSortHelper`, which sort each half
      of the range from `main` into `aux`; `m1`, `a1` are the arrays
      between them. */
  method SortHalves(main: array<int>, lo: int, mid: int, hi: int, aux: array<int>)
      returns (left: seq<Anim>, right: seq<Anim>, ghost m1: seq<int>, ghost a1: seq<int>)
    requires main != aux && main.Length == aux.Length
    requires 0 <= lo <= mid < hi < main.Length && mid == Middle(lo, hi)
    requires main[lo..hi + 1] == aux[lo..hi + 1]
    modifies main, aux
    decreases hi - lo, 0
    ensures HelperDone(old(aux[..]), old(main[..]), a1, m1, lo, mid, left)
    ensures HelperDone(a1, m1, aux[..], main[..], mid + 1, hi, right)
  {
    ghost var m0, a0 := main[..], aux[..];
    SplitRange(m0, a0, lo, mid, hi);
    left := MergeSortHelper(aux, lo, mid, main);
    m1, a1 := main[..], aux[..];
    RightHalvesAgree(m0, a0, m1, a1, lo, mid, hi, left);
    right := MergeSortHelper(aux, mid + 1, hi, main);
  }

  /** Events that leave `out` over a whole array of its length turn that array into `out`. */
  lemma ReplayWhole(input: seq<int>, anims: seq<Anim>, out: seq<int>)
    requires |input| == |out| && ReplayLeaves(anims, 0, out)
    ensures Replay(input, anims) == out
  {
    var replayed := Replay(input, anims);
    assert replayed[0..|out|] == out;
    assert replayed[0..|replayed|] == replayed;
  }

  /** What sorting the whole of a non-empty array leaves and records. */
  lemma SortedWhole(input: seq<int>, out: seq<int>, anims: seq<Anim>)
    requires |input| >= 1 && |out| == |input| && out == SortByKey(input, Id)
    requires |input| == 1 ==> anims == []
    requires |input| >= 2 ==> ReplayLeaves(anims, 0, out)
    ensures Ascending(out) && multiset(out) == multiset(input)
    ensures Replay(input, anims) == out
  {
    SortSorted(input, Id);
    SortedById(out);
    if |input| >= 2 {
      ReplayWhole(input, anims, out);
    } else {
      SortSortedIsIdentity(input, Id);
    }
  }

  lemma SliceWhole(s: seq<int>)
    ensures s[0..|s|] == s
  {
  }

  /** `mergeSortHelper`'s promise over a whole non-empty array. */
  lemma WholeDone(input: seq<int>, a0: seq<int>, out: seq<int>, a: seq<int>, anims: seq<Anim>)
    requires |input| >= 1 && HelperDone(input, a0, out, a, 0, |input| - 1, anims)
    ensures out == SortByKey(input, Id) && Ascending(out) && multiset(out) == multiset(input)
    ensures Replay(input, anims) == out
    ensures IndicesWithin(anims, 0, |input| - 1)
    ensures MarkCount(anims) == if |input| >= 2 then 1 else 0
  {
    SliceWhole(input);
    SliceWhole(out);
    SortedWhole(input, out, anims);
  }

  /** `getMergeSortAnimations`: sorts `arr` (the caller passes a copy of
      the displayed array) and returns the animation events.  Defined for
      non-empty arrays only: on an empty array the source's recursion
      never reaches its base case (see `EmptyRangeRepeats`). */
  method GetMergeSortAnimations(arr: array<int>) returns (anims: seq<Anim>)
    requires arr.Length >= 1
    modifies arr
    ensures arr[..] == SortByKey(old(arr[..]), Id)
    ensures Ascending(arr[..]) && multiset(arr[..]) == multiset(old(arr[..]))
    ensures Replay(old(arr[..]), anims) == arr[..]
    ensures IndicesWithin(anims, 0, arr.Length - 1)
    ensures MarkCount(anims) == if arr.Length >= 2 then 1 else 0
  {
    var aux := new int[arr.Length](x requires 0 <= x < arr.Length reads arr => arr[x]);
    ghost var input, scratch := arr[..], aux[..];
    assert scratch == input;
    anims := MergeSortHelper(arr, 0, arr.Length - 1, aux);
    WholeDone(input, scratch, arr[..], aux[..], anims);
  }

  /** The midpoint `Math.floor((startIdx + endIdx) / 2)`. */
  function Middle(lo: int, hi: int): (m: int)
    ensures lo <= hi ==> lo <= m <= hi
  {
    (lo + hi) / 2
  }

  /** On an empty array the helper is entered with `startIdx = 0` and
      `endIdx = -1`: the base case `startIdx === endIdx` does not hold, and
      the first recursive call is on the same range again. */
  lemma EmptyRangeRepeats()
    ensures 0 != -1 && Middle(0, -1) == -1
  {
  }
}
