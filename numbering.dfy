/** The shapes of the scrapers' record loops: keeping the entries of a
    list that pass a test and numbering them as they are appended, and a
    walk whose body may append, skip an entry or stop the script. */
module Numbering {
  import opened Wrappers

  /** The entries of `s` that pass `keep`, in order. */
  function Filter<T>(s: seq<T>, keep: T -> bool): (r: seq<T>)
    ensures |r| <= |s|
  {
    if s == [] then []
    else
      var prev := Filter(s[..|s| - 1], keep);
      if keep(s[|s| - 1]) then prev + [s[|s| - 1]] else prev
  }

  /** `s` turned into records numbered from `first`. */
  function NumberFrom<T, R>(s: seq<T>, first: int, make: (int, T) -> R): (r: seq<R>)
    ensures |r| == |s|
    ensures forall k :: 0 <= k < |s| ==> r[k] == make(first + k, s[k])
  {
    seq(|s|, k requires 0 <= k < |s| => make(first + k, s[k]))
  }

  /** The loop: walk `s`, and for each entry that passes `keep` append
      `make` of the next number (starting at `first`) and the entry. */
  function KeepAndNumber<T, R>(s: seq<T>, keep: T -> bool, make: (int, T) -> R, first: int): (r: seq<R>)
    ensures |r| <= |s|
  {
    if s == [] then []
    else
      var prev := KeepAndNumber(s[..|s| - 1], keep, make, first);
      if keep(s[|s| - 1]) then prev + [make(first + |prev|, s[|s| - 1])] else prev
  }

  lemma {:induction false} NumberFromSnoc<T, R>(s: seq<T>, x: T, first: int, make: (int, T) -> R)
    ensures NumberFrom(s + [x], first, make) == NumberFrom(s, first, make) + [make(first + |s|, x)]
  {
    var a, b := NumberFrom(s + [x], first, make), NumberFrom(s, first, make) + [make(first + |s|, x)];
    forall k | 0 <= k < |a| ensures a[k] == b[k] {
      if k < |s| {
        assert (s + [x])[k] == s[k];
      }
    }
  }

  /** The loop numbers exactly the kept entries, consecutively and in
      order. */
  lemma {:induction false} KeepAndNumberSpec<T, R>(s: seq<T>, keep: T -> bool, make: (int, T) -> R, first: int)
    ensures KeepAndNumber(s, keep, make, first) == NumberFrom(Filter(s, keep), first, make)
  {
    if s != [] {
      var init, last := s[..|s| - 1], s[|s| - 1];
      KeepAndNumberSpec(init, keep, make, first);
      if keep(last) {
        NumberFromSnoc(Filter(init, keep), last, first, make);
      }
    }
  }

  /** The filter keeps exactly the entries that pass the test. */
  lemma {:induction false} FilterSpec<T>(s: seq<T>, keep: T -> bool)
    ensures forall x :: x in Filter(s, keep) <==> x in s && keep(x)
  {
    if s != [] {
      var init, last := s[..|s| - 1], s[|s| - 1];
      FilterSpec(init, keep);
      assert s == init + [last];
    }
  }

  /** Every entry the filter keeps passes the test. */
  lemma {:induction false} FilterKept<T>(s: seq<T>, keep: T -> bool)
    ensures forall i :: 0 <= i < |Filter(s, keep)| ==> keep(Filter(s, keep)[i])
  {
    if s != [] {
      FilterKept(s[..|s| - 1], keep);
    }
  }

  /** Filtering `s + [x]`: the filter of `s`, then `x` if it passes. */
  lemma {:induction false} FilterSnoc<T>(s: seq<T>, x: T, keep: T -> bool)
    ensures Filter(s + [x], keep) == if keep(x) then Filter(s, keep) + [x] else Filter(s, keep)
  {
    var t := s + [x];
    assert t[..|t| - 1] == s && t[|t| - 1] == x;
  }

  /** Filtering distributes over concatenation: the kept entries of `a`
      come before those of `b`, each in their own order. */
  lemma {:induction false} FilterAppend<T>(a: seq<T>, b: seq<T>, keep: T -> bool)
    ensures Filter(a + b, keep) == Filter(a, keep) + Filter(b, keep)
    decreases |b|
  {
    if b == [] {
      assert a + b == a;
    } else {
      var init, last := b[..|b| - 1], b[|b| - 1];
      assert a + b == (a + init) + [last];
      assert b == init + [last];
      FilterAppend(a, init, keep);
      FilterSnoc(a + init, last, keep);
      FilterSnoc(init, last, keep);
      if keep(last) {
        assert Filter(a, keep) + Filter(init, keep) + [last] == Filter(a, keep) + (Filter(init, keep) + [last]);
      }
    }
  }

  /** A test that every entry passes keeps the list as it is. */
  lemma {:induction false} FilterAll<T>(s: seq<T>, keep: T -> bool)
    requires forall x :: keep(x)
    ensures Filter(s, keep) == s
  {
    if s != [] {
      FilterAll(s[..|s| - 1], keep);
    }
  }

  /** A test no entry passes keeps nothing. */
  lemma {:induction false} FilterNone<T>(s: seq<T>, keep: T -> bool)
    requires forall x :: !keep(x)
    ensures Filter(s, keep) == []
  {
    if s != [] {
      FilterNone(s[..|s| - 1], keep);
    }
  }

  /** Filtering by one test and then another is filtering once by both. */
  lemma {:induction false} FilterFilter<T>(s: seq<T>, first: T -> bool, second: T -> bool, both: T -> bool)
    requires forall x :: both(x) == (first(x) && second(x))
    ensures Filter(Filter(s, first), second) == Filter(s, both)
  {
    if s != [] {
      var init, last := s[..|s| - 1], s[|s| - 1];
      FilterFilter(init, first, second, both);
      if first(last) {
        FilterSnoc(Filter(init, first), last, second);
      }
    }
  }

  /** Extending the walk by one entry. */
  lemma {:induction false} KeepAndNumberSnoc<T, R>(s: seq<T>, x: T, keep: T -> bool, make: (int, T) -> R, first: int)
    ensures KeepAndNumber(s + [x], keep, make, first)
         == if keep(x) then KeepAndNumber(s, keep, make, first) + [make(first + |KeepAndNumber(s, keep, make, first)|, x)]
            else KeepAndNumber(s, keep, make, first)
  {
    var t := s + [x];
    assert t[..|t| - 1] == s && t[|t| - 1] == x;
  }

  /** What a loop body does with one entry: append a record, skip the
      entry, or stop the whole script. */
  datatype Step<R> = Keep(value: R) | Skip | Stop

  /** The records of the walk over `items`, or `None` when an entry stops
      it. */
  function Walk<T, R>(items: seq<T>, step: T -> Step<R>): (r: Option<seq<R>>)
    ensures r.Some? ==> |r.value| <= |items|
  {
    if items == [] then Some([])
    else
      match Walk(items[..|items| - 1], step)
      case None => None
      case Some(prev) =>
        match step(items[|items| - 1])
        case Stop => None
        case Skip => Some(prev)
        case Keep(x) => Some(prev + [x])
  }

  /** Both halves of a walk must finish for the whole to finish. */
  function Combine<R>(a: Option<seq<R>>, b: Option<seq<R>>): Option<seq<R>> {
    if a.Some? && b.Some? then Some(a.value + b.value) else None
  }

  /** The walk over `a + b` is the walk over `a` followed by the walk over
      `b`. */
  lemma {:induction false} WalkAppend<T, R>(a: seq<T>, b: seq<T>, step: T -> Step<R>)
    ensures Walk(a + b, step) == Combine(Walk(a, step), Walk(b, step))
    decreases |b|
  {
    if b == [] {
      assert a + b == a;
      if Walk(a, step).Some? {
        assert Walk(a, step).value + [] == Walk(a, step).value;
      }
    } else {
      var init, last := b[..|b| - 1], b[|b| - 1];
      assert a + b == (a + init) + [last];
      WalkAppend(a, init, step);
      WalkSnoc(a + init, last, step);
      WalkSnoc(init, last, step);
      if Walk(a, step).Some? && Walk(init, step).Some? && step(last).Keep? {
        var pa, pi, y := Walk(a, step).value, Walk(init, step).value, step(last).value;
        assert pa + pi + [y] == pa + (pi + [y]);
      }
    }
  }

  /** Extending the walk by one entry. */
  lemma {:induction false} WalkSnoc<T, R>(s: seq<T>, x: T, step: T -> Step<R>)
    ensures Walk(s + [x], step)
         == match Walk(s, step)
            case None => None
            case Some(prev) =>
              match step(x)
              case Stop => None
              case Skip => Some(prev)
              case Keep(y) => Some(prev + [y])
  {
    var t := s + [x];
    assert t[..|t| - 1] == s && t[|t| - 1] == x;
  }

  /** A skipped entry does not stop the rest: dropping it changes nothing. */
  lemma {:induction false} SkipContinues<T, R>(a: seq<T>, x: T, b: seq<T>, step: T -> Step<R>)
    requires step(x) == Skip
    ensures Walk(a + [x] + b, step) == Walk(a + b, step)
  {
    WalkAppend(a + [x], b, step);
    WalkAppend(a, [x], step);
    WalkAppend(a, b, step);
    assert [x][..0] == [];
  }

  /** The walk finishes exactly when no entry stops it, and then every
      record is the one its own entry yields. */
  lemma {:induction false} WalkSpec<T, R>(items: seq<T>, step: T -> Step<R>)
    ensures Walk(items, step).Some? <==> forall i :: 0 <= i < |items| ==> !step(items[i]).Stop?
    ensures Walk(items, step).Some? ==>
              forall k :: 0 <= k < |Walk(items, step).value| ==>
                exists i :: 0 <= i < |items| && step(items[i]) == Keep(Walk(items, step).value[k])
  {
    if items != [] {
      var init, last := items[..|items| - 1], items[|items| - 1];
      WalkSpec(init, step);
      assert forall i :: 0 <= i < |init| ==> items[i] == init[i];
      if Walk(items, step).Some? {
        var r := Walk(items, step).value;
        var prev := Walk(init, step).value;
        forall k | 0 <= k < |r|
          ensures exists i :: 0 <= i < |items| && step(items[i]) == Keep(r[k])
        {
          if k < |prev| {
            var i :| 0 <= i < |init| && step(init[i]) == Keep(prev[k]);
            assert items[i] == init[i];
          } else {
            assert step(items[|items| - 1]) == Keep(r[k]);
          }
        }
      }
    }
  }
  /** The record one step contributes: its value when it keeps one. */
  function Kept<R>(s: Step<R>): seq<R> {
    if s.Keep? then [s.value] else []
  }

  /** The values of the kept entries, front to back: each entry
      contributes its own record, in input order. */
  function KeptValues<T, R>(items: seq<T>, step: T -> Step<R>): seq<R> {
    if items == [] then [] else Kept(step(items[0])) + KeptValues(items[1..], step)
  }

  lemma {:induction false} KeptValuesAppend<T, R>(a: seq<T>, b: seq<T>, step: T -> Step<R>)
    ensures KeptValues(a + b, step) == KeptValues(a, step) + KeptValues(b, step)
  {
    if a == [] {
      assert a + b == b;
    } else {
      assert (a + b)[0] == a[0] && (a + b)[1..] == a[1..] + b;
      KeptValuesAppend(a[1..], b, step);
    }
  }

  /** A walk that finishes holds exactly the kept values: every entry that
      keeps a record contributes it, and in input order. */
  lemma {:induction false} WalkKeeps<T, R>(items: seq<T>, step: T -> Step<R>)
    ensures Walk(items, step).Some? ==> Walk(items, step).value == KeptValues(items, step)
  {
    if items != [] {
      var init, last := items[..|items| - 1], items[|items| - 1];
      WalkKeeps(init, step);
      assert items == init + [last];
      KeptValuesAppend(init, [last], step);
      assert [last][1..] == [];
    }
  }
}
