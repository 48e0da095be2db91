/** The heap-sort visualiser's algorithm: a max-heap is built by sifting
    down every inner node from the last one to the root, then the root is
    swapped to the end of the shrinking heap and the heap is repaired.
    Every step is recorded as an animation event, and the player replays
    the swap events on the displayed array. */
module HeapSort {
  import opened Sorting

  /** Animation events; each carries the indices it names. */
  datatype Anim =
    | SetRoot(i: int)
    | Compare(i: int, j: int)
    | Swap(i: int, j: int)
    | Heapified(i: int)
    | MarkSorted(i: int)

  /** The indices a compare, swap, set-root or heapify event names are
      below `n`. */
  predicate InRange(e: Anim, n: int) {
    match e
    case SetRoot(i) => 0 <= i < n
    case Compare(i, j) => 0 <= i < n && 0 <= j < n
    case Swap(i, j) => 0 <= i < n && 0 <= j < n
    case Heapified(i) => 0 <= i < n
    case MarkSorted(_) => true
  }

  /** Every event of the list names indices below `n` only. */
  ghost predicate IndicesBelow(events: seq<Anim>, n: int) {
    forall k :: 0 <= k < |events| ==> InRange(events[k], n)
  }

  lemma IndicesBelowWiden(events: seq<Anim>, n: int, m: int)
    requires IndicesBelow(events, n) && n <= m
    ensures IndicesBelow(events, m)
  {
    forall k | 0 <= k < |events| ensures InRange(events[k], m) {
      assert InRange(events[k], n);
    }
  }

  lemma IndicesBelowAppend(e1: seq<Anim>, e2: seq<Anim>, n: int)
    requires IndicesBelow(e1, n) && IndicesBelow(e2, n)
    ensures IndicesBelow(e1 + e2, n)
  {
  }

  /** The indices of the mark-sorted events, in order. */
  function Marked(events: seq<Anim>): (r: seq<int>)
    ensures |r| <= |events|
  {
    if events == [] then []
    else
      var last := events[|events| - 1];
      Marked(events[..|events| - 1]) + if last.MarkSorted? then [last.i] else []
  }

  /** What the player does with one event: a swap exchanges two bars, every
      other event only changes colours. */
  function Apply(s: seq<int>, e: Anim): (r: seq<int>)
    ensures |r| == |s|
  {
    if e.Swap? && 0 <= e.i < |s| && 0 <= e.j < |s| then s[e.i := s[e.j]][e.j := s[e.i]] else s
  }

  /** Replaying `events` in order on `s`. */
  function Replay(s: seq<int>, events: seq<Anim>): (r: seq<int>)
    ensures |r| == |s|
  {
    if events == [] then s else Apply(Replay(s, events[..|events| - 1]), events[|events| - 1])
  }

  /** Replaying events only permutes the array. */
  lemma {:induction false} ReplayPermutes(s: seq<int>, events: seq<Anim>)
    ensures multiset(Replay(s, events)) == multiset(s)
  {
    if events != [] {
      ReplayPermutes(s, events[..|events| - 1]);
      var t := Replay(s, events[..|events| - 1]);
      var e := events[|events| - 1];
      if e.Swap? && 0 <= e.i < |t| && 0 <= e.j < |t| {
        assert Apply(t, e) == t[e.i := t[e.j]][e.j := t[e.i]];
      }
    }
  }

  lemma {:induction false} ReplayAppend(s: seq<int>, e1: seq<Anim>, e2: seq<Anim>)
    ensures Replay(s, e1 + e2) == Replay(Replay(s, e1), e2)
  {
    if e2 == [] {
      assert e1 + e2 == e1;
    } else {
      assert (e1 + e2)[..|e1 + e2| - 1] == e1 + e2[..|e2| - 1];
      ReplayAppend(s, e1, e2[..|e2| - 1]);
    }
  }

  /** Events other than swaps leave the replayed array as it is. */
  lemma {:induction false} ReplayNoSwap(s: seq<int>, events: seq<Anim>)
    requires forall e :: e in events ==> !e.Swap?
    ensures Replay(s, events) == s
  {
    if events != [] {
      assert events[|events| - 1] in events;
      ReplayNoSwap(s, events[..|events| - 1]);
    }
  }

  lemma {:induction false} MarkedAppend(e1: seq<Anim>, e2: seq<Anim>)
    ensures Marked(e1 + e2) == Marked(e1) + Marked(e2)
  {
    if e2 == [] {
      assert e1 + e2 == e1;
    } else {
      assert (e1 + e2)[..|e1 + e2| - 1] == e1 + e2[..|e2| - 1];
      MarkedAppend(e1, e2[..|e2| - 1]);
    }
  }

  /** Node `p` is at least as large as its children within the first `n`
      elements. */
  ghost predicate Dominates(s: seq<int>, n: int, p: int)
    requires 0 <= p && n <= |s|
  {
    (2 * p + 1 < n ==> s[p] >= s[2 * p + 1]) && (2 * p + 2 < n ==> s[p] >= s[2 * p + 2])
  }

  /** The heap order holds at every node from `lo` on within the first `n`
      elements. */
  ghost predicate HeapFrom(s: seq<int>, lo: int, n: int)
    requires 0 <= lo && n <= |s|
  {
    forall p :: lo <= p < n ==> Dominates(s, n, p)
  }

  /** The state of a sift-down at `r`: the heap order holds at every node
      from `lo` on except `r`, and the parent of `r` (when it is in the
      region) dominates the children of `r`. */
  ghost predicate SiftState(s: seq<int>, lo: int, n: int, r: int)
    requires 0 <= lo && 0 <= r < n <= |s|
  {
    (forall p :: lo <= p < n && p != r ==> Dominates(s, n, p)) &&
    (0 < r && lo <= (r - 1) / 2 ==>
       (2 * r + 1 < n ==> s[(r - 1) / 2] >= s[2 * r + 1]) &&
       (2 * r + 2 < n ==> s[(r - 1) / 2] >= s[2 * r + 2]))
  }

  /** The root of a heap holds its largest element. */
  lemma {:induction false} RootIsMax(s: seq<int>, n: int, k: int)
    requires n <= |s| && HeapFrom(s, 0, n) && 0 <= k < n
    ensures s[0] >= s[k]
    decreases k
  {
    if k > 0 {
      var p := (k - 1) / 2;
      assert Dominates(s, n, p);
      RootIsMax(s, n, p);
    }
  }

  /** Swapping `i` with its larger child `m` moves the sift-down to `m`. */
  lemma SwapDown(s: seq<int>, lo: int, n: int, i: int, m: int)
    requires 0 <= lo <= i < m < n <= |s| && (m == 2 * i + 1 || m == 2 * i + 2)
    requires SiftState(s, lo, n, i)
    requires s[m] > s[i]
    requires 2 * i + 1 < n ==> s[m] >= s[2 * i + 1]
    requires 2 * i + 2 < n ==> s[m] >= s[2 * i + 2]
    ensures SiftState(s[i := s[m]][m := s[i]], lo, n, m)
  {
    var t := s[i := s[m]][m := s[i]];
    forall p | lo <= p < n && p != m ensures Dominates(t, n, p) {
      if p == i {
      } else {
        assert Dominates(s, n, p);
        if 2 * p + 1 == i || 2 * p + 2 == i {
          assert p == (i - 1) / 2;
        }
      }
    }
    assert (m - 1) / 2 == i;
    assert Dominates(s, n, m);
  }

  /** The comparison step of a sift-down: `largest` starts at `i` and moves
      to the left, then the right child when that child is strictly larger;
      each comparison is recorded after the set-root event. */
  method ChooseLargest(a: array<int>, n: int, i: int) returns (largest: int, looked: seq<Anim>)
    requires 0 <= i < n <= a.Length
    ensures largest == i || largest == 2 * i + 1 || largest == 2 * i + 2
    ensures i <= largest < n
    ensures largest != i ==> a[largest] > a[i]
    ensures 2 * i + 1 < n ==> a[largest] >= a[2 * i + 1]
    ensures 2 * i + 2 < n ==> a[largest] >= a[2 * i + 2]
    ensures a[largest] >= a[i]
    ensures 1 <= |looked| <= 3 && looked[0] == SetRoot(i)
    ensures forall k :: 0 <= k < |looked| ==> looked[k].SetRoot? || looked[k].Compare?
    ensures IndicesBelow(looked, n)
  {
    looked := [SetRoot(i)];
    largest := i;
    var left := 2 * i + 1;
    var right := 2 * i + 2;
    if left < n {
      looked := looked + [Compare(largest, left)];
      if a[left] > a[largest] {
        largest := left;
      }
    }
    if right < n {
      looked := looked + [Compare(largest, right)];
      if a[right] > a[largest] {
        largest := right;
      }
    }
  }

  /** Sift-down of the value at `i` within the first `n` elements; `lo` is
      the start of the region whose heap order the caller relies on.  The
      result is the list of events the call pushes, in order. */
  method Heapify(a: array<int>, n: int, i: int, ghost lo: int) returns (events: seq<Anim>)
    requires 0 <= lo <= i < n <= a.Length
    requires SiftState(a[..], lo, n, i)
    modifies a
    ensures HeapFrom(a[..], lo, n)
    ensures forall k :: 0 <= k < a.Length && (k < i || n <= k) ==> a[k] == old(a[k])
    ensures Replay(old(a[..]), events) == a[..]
    ensures IndicesBelow(events, n)
    ensures Marked(events) == []
    ensures |events| >= 2 && events[0] == SetRoot(i) && events[|events| - 1] == Heapified(i)
    decreases n - i
  {
    var largest, looked := ChooseLargest(a, n, i);
    ghost var s0 := a[..];
    if largest != i {
      SwapDown(s0, lo, n, i, largest);
      a[i], a[largest] := a[largest], a[i];
      assert a[..] == Apply(s0, Swap(i, largest));
      var rest := Heapify(a, n, largest, lo);
      events := looked + [Swap(i, largest)] + rest + [Heapified(i)];
      SwapEvents(s0, looked, i, largest, rest, n);
    } else {
      assert Dominates(s0, n, i);
      events := looked + [Heapified(i)];
      StayEvents(s0, looked, i, n);
    }
  }

  /** The events of a call that swapped `i` with `m` and recursed. */
  lemma SwapEvents(s: seq<int>, looked: seq<Anim>, i: int, m: int, rest: seq<Anim>, n: int)
    requires 1 <= |looked| && looked[0] == SetRoot(i) && IndicesBelow(looked, n)
    requires forall k :: 0 <= k < |looked| ==> looked[k].SetRoot? || looked[k].Compare?
    requires 0 <= i < n && 0 <= m < n && IndicesBelow(rest, n) && Marked(rest) == []
    ensures var events := looked + [Swap(i, m)] + rest + [Heapified(i)];
      Replay(s, events) == Replay(Apply(s, Swap(i, m)), rest) &&
      IndicesBelow(events, n) && Marked(events) == [] &&
      events[0] == SetRoot(i) && events[|events| - 1] == Heapified(i)
  {
    NoSwapNoMark(s, looked);
    SwapThen(s, looked, i, m, rest);
    Finish(s, looked + [Swap(i, m)] + rest, i);
    IndicesBelowAppend(looked, [Swap(i, m)], n);
    IndicesBelowAppend(looked + [Swap(i, m)], rest, n);
    IndicesBelowAppend(looked + [Swap(i, m)] + rest, [Heapified(i)], n);
  }

  /** The events of a call that found `i` already largest. */
  lemma StayEvents(s: seq<int>, looked: seq<Anim>, i: int, n: int)
    requires 1 <= |looked| && looked[0] == SetRoot(i) && IndicesBelow(looked, n)
    requires forall k :: 0 <= k < |looked| ==> looked[k].SetRoot? || looked[k].Compare?
    requires 0 <= i < n
    ensures var events := looked + [Heapified(i)];
      Replay(s, events) == s && IndicesBelow(events, n) && Marked(events) == [] &&
      events[0] == SetRoot(i) && events[|events| - 1] == Heapified(i)
  {
    NoSwapNoMark(s, looked);
    Finish(s, looked, i);
    IndicesBelowAppend(looked, [Heapified(i)], n);
  }

  /** The set-root and compare events of one call change nothing and mark
      nothing. */
  lemma NoSwapNoMark(s: seq<int>, events: seq<Anim>)
    requires forall k :: 0 <= k < |events| ==> events[k].SetRoot? || events[k].Compare?
    ensures Replay(s, events) == s && Marked(events) == []
  {
    ReplayNoSwap(s, events);
    MarkedNone(events);
  }

  /** Replay and marks of the swap followed by the recursive call. */
  lemma SwapThen(s: seq<int>, looked: seq<Anim>, i: int, m: int, rest: seq<Anim>)
    requires Replay(s, looked) == s && Marked(looked) == [] && Marked(rest) == []
    ensures Replay(s, looked + [Swap(i, m)] + rest) == Replay(Apply(s, Swap(i, m)), rest)
    ensures Marked(looked + [Swap(i, m)] + rest) == []
  {
    ReplayAppend(s, looked + [Swap(i, m)], rest);
    MarkedAppend(looked + [Swap(i, m)], rest);
    ReplayAppend(s, looked, [Swap(i, m)]);
    MarkedAppend(looked, [Swap(i, m)]);
    assert [Swap(i, m)][..0] == [];
  }

  /** The closing heapify event changes nothing and marks nothing. */
  lemma Finish(s: seq<int>, events: seq<Anim>, i: int)
    ensures Replay(s, events + [Heapified(i)]) == Replay(s, events)
    ensures Marked(events + [Heapified(i)]) == Marked(events)
  {
    assert (events + [Heapified(i)])[..|events|] == events;
  }

  /** A list with no mark-sorted event marks nothing. */
  lemma {:induction false} MarkedNone(events: seq<Anim>)
    requires forall e :: e in events ==> !e.MarkSorted?
    ensures Marked(events) == []
  {
    if events != [] {
      assert events[|events| - 1] in events;
      MarkedNone(events[..|events| - 1]);
    }
  }

  /** Moving the root to position `i` leaves a sift-down at the root of
      the first `i` elements. */
  lemma RootToEnd(s: seq<int>, i: int)
    requires 0 < i < |s| && HeapFrom(s, 0, i + 1)
    ensures SiftState(Apply(s, Swap(0, i)), 0, i, 0)
  {
    var t := Apply(s, Swap(0, i));
    forall p | 0 <= p < i && p != 0 ensures Dominates(t, i, p) {
      assert Dominates(s, i + 1, p);
    }
  }

  /** Elements below `i` that stay a permutation among themselves keep
      every bound they had. */
  lemma PrefixKept(s: seq<int>, t: seq<int>, i: int, bound: int)
    requires |s| == |t| && 0 <= i <= |s| && multiset(s) == multiset(t) && s[i..] == t[i..]
    requires forall x :: 0 <= x < i ==> s[x] <= bound
    ensures forall x :: 0 <= x < i ==> t[x] <= bound
  {
    assert s == s[..i] + s[i..] && t == t[..i] + t[i..];
    assert multiset(s) == multiset(s[..i]) + multiset(s[i..]);
    assert multiset(t) == multiset(t[..i]) + multiset(t[i..]);
    forall x | 0 <= x < i ensures t[x] <= bound {
      var v := t[x];
      assert t[..i][x] == v;
      assert multiset(t[..i])[v] > 0;
      assert multiset(s[i..]) == multiset(t[i..]);
      assert multiset(s)[v] == multiset(s[..i])[v] + multiset(s[i..])[v];
      assert multiset(t)[v] == multiset(t[..i])[v] + multiset(t[i..])[v];
      assert v in multiset(s[..i]);
      var y :| 0 <= y < i && s[..i][y] == v;
    }
  }

  /** The extraction loop's state at `i`: the first `i + 1` elements form a
      max-heap, the rest is ascending, and nothing in the heap exceeds
      anything after it. */
  ghost predicate ExtractState(s: seq<int>, i: int) {
    0 <= i < |s| && HeapFrom(s, 0, i + 1) &&
    (forall x, y :: i < x < y < |s| ==> s[x] <= s[y]) &&
    (forall x, y :: 0 <= x <= i < y < |s| ==> s[x] <= s[y])
  }

  /** One extraction: the root, the heap's maximum, goes to position `i`;
      the repaired heap below `i` is a permutation of what was left. */
  lemma ExtractStep(s: seq<int>, i: int, events: seq<Anim>, after: seq<int>)
    requires ExtractState(s, i) && 0 < i
    requires |after| == |s| && Replay(Apply(s, Swap(0, i)), events) == after
    requires forall k :: i <= k < |s| ==> after[k] == Apply(s, Swap(0, i))[k]
    requires HeapFrom(after, 0, i)
    ensures ExtractState(after, i - 1)
  {
    var t := Apply(s, Swap(0, i));
    assert after[i..] == t[i..];
    ReplayPermutes(t, events);
    forall k | 0 <= k <= i ensures s[0] >= s[k] {
      RootIsMax(s, i + 1, k);
    }
    assert forall x :: 0 <= x < i ==> t[x] <= t[i];
    PrefixKept(t, after, i, t[i]);
    forall x, y | 0 <= x <= i - 1 < y < |s| ensures after[x] <= after[y] {
      assert after[y] == t[y];
      if y > i {
        assert t[i] <= t[y];
      }
    }
  }

  /** The events of one extraction extend the replay and the marks. */
  lemma ExtractEvents(input: seq<int>, anims: seq<Anim>, s: seq<int>, i: int, events: seq<Anim>)
    requires 0 < i < |s| && Replay(input, anims) == s
    requires IndicesBelow(anims, |s|) && Marked(anims) == seq(|s| - 1 - i, k => |s| - 1 - k)
    requires IndicesBelow(events, i) && Marked(events) == []
    ensures var anims' := anims + [Swap(0, i), MarkSorted(i)] + events;
      Replay(input, anims') == Replay(Apply(s, Swap(0, i)), events) &&
      IndicesBelow(anims', |s|) && Marked(anims') == seq(|s| - i, k => |s| - 1 - k)
  {
    var step := [Swap(0, i), MarkSorted(i)];
    IndicesBelowWiden(events, i, |s|);
    MarkedCountdown(|s|, i);
    ReplayAppend(input, anims, step);
    ReplayAppend(input, anims + step, events);
    MarkedAppend(anims, step);
    MarkedAppend(anims + step, events);
    assert step[..1] == [Swap(0, i)];
    assert [Swap(0, i)][..0] == [];
    assert Replay(s, [Swap(0, i)]) == Apply(s, Swap(0, i));
    assert Replay(s, step) == Apply(s, Swap(0, i));
    IndicesBelowAppend(anims, step, |s|);
    IndicesBelowAppend(anims + step, events, |s|);
  }

  /** Marking `i` after `n - 1` down to `i + 1` gives `n - 1` down to `i`. */
  lemma MarkedCountdown(n: int, i: int)
    requires 0 <= i < n
    ensures seq(n - 1 - i, k => n - 1 - k) + [i] == seq(n - i, k => n - 1 - k)
  {
  }

  /** The closing event marks index 0, which completes the marks. */
  lemma LastMark(input: seq<int>, anims: seq<Anim>, s: seq<int>)
    requires Replay(input, anims) == s && IndicesBelow(anims, |s|)
    requires Marked(anims) == if |s| == 0 then [] else seq(|s| - 1, k => |s| - 1 - k)
    ensures var anims' := anims + [MarkSorted(0)];
      Replay(input, anims') == s && IndicesBelow(anims', |s|) && multiset(s) == multiset(input) &&
      Marked(anims') == if |s| == 0 then [0] else seq(|s|, k => |s| - 1 - k)
  {
    MarkedAppend(anims, [MarkSorted(0)]);
    assert [MarkSorted(0)][..0] == [];
    assert (anims + [MarkSorted(0)])[..|anims|] == anims;
    IndicesBelowAppend(anims, [MarkSorted(0)], |s|);
    ReplayPermutes(input, anims);
    if |s| > 0 {
      MarkedCountdown(|s|, 0);
    }
  }

  /** A finished extraction leaves the array ascending. */
  lemma ExtractDone(s: seq<int>)
    requires ExtractState(s, 0)
    ensures Ascending(s)
  {
  }

  /** The visualiser's heap sort: the caller's array is copied, a max-heap
      is built bottom-up, then the root is repeatedly swapped to the end of
      the heap, marked sorted, and the heap repaired.  Returns the events and
      the final working copy. */
  method GetHeapSortAnimations(arr: array<int>) returns (anims: seq<Anim>, sorted: seq<int>)
    ensures Ascending(sorted) && multiset(sorted) == multiset(arr[..])
    ensures Replay(arr[..], anims) == sorted
    ensures IndicesBelow(anims, arr.Length)
    ensures Marked(anims) == if arr.Length == 0 then [0] else seq(arr.Length, k => arr.Length - 1 - k)
  {
    var n := arr.Length;
    var a := new int[n];
    forall k | 0 <= k < n {
      a[k] := arr[k];
    }
    assert a[..] == arr[..];
    anims := [];
    a, anims := BuildMaxHeap(a, anims, arr[..]);
    if n > 0 {
      anims := ExtractAll(a, anims, arr[..]);
      ExtractDone(a[..]);
    }
    sorted := a[..];
    LastMark(arr[..], anims, sorted);
    anims := anims + [MarkSorted(0)];
  }

  /** The extraction phase: swap the root to position `i`, mark it sorted,
      repair the heap below `i`, for `i` from the last index down to 1. */
  method ExtractAll(a: array<int>, anims: seq<Anim>, ghost input: seq<int>) returns (anims': seq<Anim>)
    requires a.Length > 0 && HeapFrom(a[..], 0, a.Length)
    requires Replay(input, anims) == a[..] && IndicesBelow(anims, a.Length) && Marked(anims) == []
    modifies a
    ensures ExtractState(a[..], 0)
    ensures Replay(input, anims') == a[..] && IndicesBelow(anims', a.Length)
    ensures Marked(anims') == seq(a.Length - 1, k => a.Length - 1 - k)
  {
    var n := a.Length;
    anims' := anims;
    var i := n - 1;
    while i > 0
      invariant 0 <= i < n
      invariant ExtractState(a[..], i)
      invariant Replay(input, anims') == a[..] && IndicesBelow(anims', n)
      invariant Marked(anims') == seq(n - 1 - i, k => n - 1 - k)
    {
      ghost var s := a[..];
      RootToEnd(s, i);
      a[0], a[i] := a[i], a[0];
      assert a[..] == Apply(s, Swap(0, i));
      var events := Heapify(a, i, 0, 0);
      ExtractStep(s, i, events, a[..]);
      ExtractEvents(input, anims', s, i, events);
      anims' := anims' + [Swap(0, i), MarkSorted(i)] + events;
      i := i - 1;
    }
  }

  /** The build phase: heapify every inner node from the last one down to
      the root, which leaves the whole array a max-heap. */
  method BuildMaxHeap(a: array<int>, anims: seq<Anim>, ghost input: seq<int>)
    returns (a': array<int>, anims': seq<Anim>)
    requires Replay(input, anims) == a[..] && IndicesBelow(anims, a.Length) && Marked(anims) == []
    modifies a
    ensures a' == a
    ensures HeapFrom(a[..], 0, a.Length)
    ensures Replay(input, anims') == a[..] && IndicesBelow(anims', a.Length) && Marked(anims') == []
  {
    var n := a.Length;
    a', anims' := a, anims;
    var i := n / 2 - 1;
    while i >= 0
      invariant -1 <= i <= n / 2 - 1
      invariant HeapFrom(a[..], i + 1, n)
      invariant Replay(input, anims') == a[..] && IndicesBelow(anims', n) && Marked(anims') == []
    {
      ghost var before := a[..];
      var events := Heapify(a, n, i, i);
      ReplayAppend(input, anims', events);
      MarkedAppend(anims', events);
      anims' := anims' + events;
      i := i - 1;
    }
  }
}
