/** The Knuth-Morris-Pratt core of the KMP visualiser: the prefix function
    (LPS array) and the search loop that records every match position, plus
    the input guard of the submit handler. */
module Kmp {
  import opened Wrappers

  /** The `k` characters of `pattern` that start it also end at position
      `e` of `text` (that is, `text[e-k..e] == pattern[..k]`). */
  ghost predicate EndsWith(text: string, e: int, pattern: string, k: int) {
    0 <= k <= e <= |text| && k <= |pattern| &&
    forall t :: 0 <= t < k ==> text[e - k + t] == pattern[t]
  }

  /** `k` is the length of a proper prefix of `p[..q]` that is also its
      suffix (a border). */
  ghost predicate Border(p: string, q: int, k: int) {
    k < q && EndsWith(p, q, p, k)
  }

  /** No border of `p[..q]` is longer than `b`. */
  ghost predicate BordersAtMost(p: string, q: int, b: int) {
    forall k :: b < k ==> !Border(p, q, k)
  }

  /** `b` is the longest border of `p[..q]`. */
  ghost predicate LongestBorder(p: string, q: int, b: int) {
    Border(p, q, b) && BordersAtMost(p, q, b)
  }

  /** `lps[i]` is the longest proper prefix of `p[..i+1]` that is also its
      suffix. */
  ghost predicate IsLps(p: string, lps: seq<int>) {
    |lps| == |p| && forall i :: 0 <= i < |p| ==> LongestBorder(p, i + 1, lps[i])
  }

  /** The first `n` entries of `lps` are right. */
  ghost predicate LpsUpTo(p: string, lps: seq<int>, n: int) {
    |lps| == |p| && n <= |p| && forall j :: 0 <= j < n ==> LongestBorder(p, j + 1, lps[j])
  }

  /** Writing the longest border of `p[..n+1]` at `n` extends a right
      prefix by one entry. */
  lemma LpsUpToStep(p: string, lps: seq<int>, n: int, v: int)
    requires LpsUpTo(p, lps, n) && 0 <= n < |p| && LongestBorder(p, n + 1, v)
    ensures LpsUpTo(p, lps[n := v], n + 1)
  {
    var t := lps[n := v];
    forall j | 0 <= j < n + 1 ensures LongestBorder(p, j + 1, t[j]) {
      if j < n {
        assert t[j] == lps[j];
      }
    }
  }

  /** `pattern` occurs in `text` at `pos`. */
  ghost predicate Occurs(text: string, pattern: string, pos: int) {
    0 <= pos && pos + |pattern| <= |text| && text[pos..pos + |pattern|] == pattern
  }

  lemma OccursIsEndsWith(text: string, pattern: string, pos: int)
    requires 0 <= pos
    ensures Occurs(text, pattern, pos) <==> EndsWith(text, pos + |pattern|, pattern, |pattern|)
  {
    if EndsWith(text, pos + |pattern|, pattern, |pattern|) {
      assert text[pos..pos + |pattern|] == pattern;
    }
  }

  /** A border of a string that is itself a border is a border (borders of
      `p[..a]` are borders of `p[..q]` when `a` is). */
  lemma BorderOfBorder(p: string, q: int, a: int, b: int)
    requires Border(p, q, a) && Border(p, a, b)
    ensures Border(p, q, b)
  {
    forall t | 0 <= t < b ensures p[q - b + t] == p[t] {
      assert p[q - a + (a - b + t)] == p[a - b + t];
    }
  }

  /** The shorter of two borders of `p[..q]` is a border of the longer. */
  lemma ShorterBorder(p: string, q: int, a: int, b: int)
    requires Border(p, q, a) && Border(p, q, b) && 0 <= b < a
    ensures Border(p, a, b)
  {
    forall t | 0 <= t < b ensures p[a - b + t] == p[t] {
      assert p[q - a + (a - b + t)] == p[a - b + t];
    }
  }

  /** Dropping the last character of a match that ends at `e` leaves a match
      of one fewer character ending at `e - 1`. */
  lemma Shrink(text: string, e: int, pattern: string, k: int)
    requires EndsWith(text, e, pattern, k) && k >= 1
    ensures EndsWith(text, e - 1, pattern, k - 1) && text[e - 1] == pattern[k - 1]
  {
    assert text[e - k + (k - 1)] == pattern[k - 1];
  }

  /** Two matches ending at the same place: the shorter prefix is a border of
      the longer one. */
  lemma Overlap(text: string, e: int, pattern: string, a: int, b: int)
    requires EndsWith(text, e, pattern, a) && EndsWith(text, e, pattern, b) && 0 <= b < a
    ensures Border(pattern, a, b)
  {
    forall t | 0 <= t < b ensures pattern[a - b + t] == pattern[t] {
      assert text[e - a + (a - b + t)] == pattern[a - b + t];
      assert text[e - b + t] == pattern[t];
    }
  }

  /** A border of the matched prefix is itself a match ending at the same
      place. */
  lemma MatchBorder(text: string, e: int, pattern: string, a: int, b: int)
    requires EndsWith(text, e, pattern, a) && Border(pattern, a, b)
    ensures EndsWith(text, e, pattern, b)
  {
    forall t | 0 <= t < b ensures text[e - b + t] == pattern[t] {
      assert text[e - a + (a - b + t)] == pattern[a - b + t];
    }
  }

  /** A border of `p[..q+1]` longer than one drops its last character to a
      border of `p[..q]`, so the bound on `p[..q]` grows by at most one. */
  lemma GrowBound(p: string, q: int, b: int)
    requires 1 <= q < |p| && 0 <= b && BordersAtMost(p, q, b)
    ensures BordersAtMost(p, q + 1, b + 1)
  {
    var q1 := q + 1;
    forall k | b + 1 < k ensures !Border(p, q1, k) {
      if Border(p, q1, k) {
        Shrink(p, q1, p, k);
        assert Border(p, q, k - 1);
      }
    }
  }

  /** A match of the next character extends the border by one. */
  lemma ExtendBorder(p: string, i: int, length: int)
    requires 0 <= length < i < |p| && Border(p, i, length) && p[i] == p[length]
    ensures Border(p, i + 1, length + 1)
  {
    assert EndsWith(p, i + 1, p, length + 1);
  }

  /** On a mismatch the candidate falls back to the longest border of the
      current one, and no border of `p[..i+1]` is lost. */
  lemma LpsFallBack(p: string, i: int, length: int, next: int)
    requires 0 < length < i < |p| && p[i] != p[length]
    requires Border(p, i, length) && BordersAtMost(p, i + 1, length + 1)
    requires LongestBorder(p, length, next)
    ensures Border(p, i, next) && BordersAtMost(p, i + 1, next + 1)
  {
    BorderOfBorder(p, i, length, next);
    var q := i + 1;
    forall k | next + 1 < k ensures !Border(p, q, k) {
      if Border(p, q, k) {
        Shrink(p, q, p, k);
        if k - 1 < length {
          ShorterBorder(p, i, length, k - 1);
        }
      }
    }
  }

  /** With no candidate left and a mismatch on the first character, the
      longest border of `p[..i+1]` is empty. */
  lemma NoBorder(p: string, i: int)
    requires 0 < i < |p| && p[i] != p[0] && BordersAtMost(p, i + 1, 1)
    ensures LongestBorder(p, i + 1, 0)
  {
    var q := i + 1;
    forall k | 0 < k ensures !Border(p, q, k) {
      if Border(p, q, k) {
        Shrink(p, q, p, k);
      }
    }
  }

  /** The prefix function as the visualiser computes it before the search
      (both internal copies in the submit handler run this loop): `length`
      falls back through `lps[length - 1]` on a mismatch.  Each iteration
      either advances `i` or strictly shortens `length`, which is the
      `decreases` clause below. */
  method ComputeLps(pattern: string) returns (lps: array<int>)
    ensures fresh(lps)
    ensures IsLps(pattern, lps[..])
  {
    var m := |pattern|;
    lps := new int[m](_ => 0);
    if m == 0 {
      return;
    }
    var length := 0;
    var i := 1;
    assert LongestBorder(pattern, 1, 0);
    LpsUpToStep(pattern, lps[..], 0, 0);
    assert lps[..][0 := 0] == lps[..];
    while i < m
      invariant 1 <= i <= m
      invariant 0 <= length < i
      invariant Border(pattern, i, length)
      invariant i < m ==> BordersAtMost(pattern, i + 1, length + 1)
      invariant LpsUpTo(pattern, lps[..], i)
      decreases m - i, length
    {
      if pattern[i] == pattern[length] {
        ExtendBorder(pattern, i, length);
        LpsUpToStep(pattern, lps[..], i, length + 1);
        length := length + 1;
        lps[i] := length;
        i := i + 1;
        if i < m {
          GrowBound(pattern, i, length);
        }
      } else if length != 0 {
        var next := lps[length - 1];
        LpsFallBack(pattern, i, length, next);
        length := next;
      } else {
        NoBorder(pattern, i);
        LpsUpToStep(pattern, lps[..], i, 0);
        lps[i] := 0;
        i := i + 1;
        if i < m {
          GrowBound(pattern, i, 0);
        }
      }
    }
  }

  /** `lps[0] == 0` and `lps[i] <= i`. */
  lemma LpsBounds(p: string, lps: seq<int>)
    requires IsLps(p, lps)
    ensures |p| > 0 ==> lps[0] == 0
    ensures forall i :: 0 <= i < |p| ==> 0 <= lps[i] <= i
  {
  }

  /** The prefix function is determined by the pattern: any two loops that
      establish `IsLps` computed the same array. */
  lemma {:induction false} LpsUnique(p: string, a: seq<int>, b: seq<int>)
    requires IsLps(p, a) && IsLps(p, b)
    ensures a == b
  {
    forall i | 0 <= i < |p| ensures a[i] == b[i] {
      assert LongestBorder(p, i + 1, a[i]) && LongestBorder(p, i + 1, b[i]);
    }
  }

  /** No match of more than `b` pattern characters ends at `e`. */
  ghost predicate NoLongerMatch(text: string, e: int, pattern: string, b: int) {
    forall k :: b < k ==> !EndsWith(text, e, pattern, k)
  }

  /** After both indices advance on a match, the bound on longer matches
      moves one position along. */
  lemma Advance(text: string, pattern: string, e: int, b: int)
    requires b >= 0 && NoLongerMatch(text, e, pattern, b)
    ensures NoLongerMatch(text, e + 1, pattern, b + 1)
  {
    var e' := e + 1;
    forall k | b + 1 < k ensures !EndsWith(text, e', pattern, k) {
      if EndsWith(text, e', pattern, k) {
        Shrink(text, e', pattern, k);
      }
    }
  }

  /** The fall-back step: when the `j` characters ending at `i` cannot be
      extended (a mismatch, or `j` is the whole pattern), the next candidate
      is `lps[j - 1]`, and nothing longer than it plus one can end at
      `i + 1`. */
  lemma FallBack(text: string, pattern: string, lps: seq<int>, i: int, j: int)
    requires IsLps(pattern, lps) && 1 <= j <= |pattern|
    requires EndsWith(text, i, pattern, j)
    requires NoLongerMatch(text, i + 1, pattern, j + 1)
    requires j == |pattern| || (i < |text| && text[i] != pattern[j])
    ensures EndsWith(text, i, pattern, lps[j - 1])
    ensures NoLongerMatch(text, i + 1, pattern, lps[j - 1] + 1)
  {
    var next := lps[j - 1];
    assert LongestBorder(pattern, j, next);
    MatchBorder(text, i, pattern, j, next);
    var e := i + 1;
    forall k | next + 1 < k ensures !EndsWith(text, e, pattern, k) {
      if EndsWith(text, e, pattern, k) {
        Shrink(text, e, pattern, k);
        if k - 1 < j {
          Overlap(text, i, pattern, j, k - 1);
        }
      }
    }
  }

  /** `matches` holds exactly the occurrences that end by position `e`. */
  ghost predicate MatchesUpTo(text: string, pattern: string, matches: seq<int>, e: int) {
    forall p :: p in matches <==> Occurs(text, pattern, p) && p + |pattern| <= e
  }

  /** No occurrence ends at `e + 1`: the recorded matches stay complete. */
  lemma NoMatchEnds(text: string, pattern: string, matches: seq<int>, e: int)
    requires MatchesUpTo(text, pattern, matches, e)
    requires !EndsWith(text, e + 1, pattern, |pattern|)
    ensures MatchesUpTo(text, pattern, matches, e + 1)
  {
    forall p | Occurs(text, pattern, p) && p + |pattern| == e + 1 ensures false {
      OccursIsEndsWith(text, pattern, p);
    }
  }

  /** An occurrence ends at `e`: recording it keeps the matches complete. */
  lemma RecordMatch(text: string, pattern: string, matches: seq<int>, e: int)
    requires MatchesUpTo(text, pattern, matches, e - 1)
    requires EndsWith(text, e, pattern, |pattern|)
    ensures MatchesUpTo(text, pattern, matches + [e - |pattern|], e)
  {
    OccursIsEndsWith(text, pattern, e - |pattern|);
    forall p | Occurs(text, pattern, p) && p + |pattern| == e ensures p == e - |pattern| {
    }
  }

  /** The search loop of the visualiser: on a match both indices advance, on
      a mismatch `j` falls back through `lps[j - 1]` or, at `j == 0`, `i`
      advances; a full match records `i - j` and falls back through
      `lps[j - 1]`.  Every iteration counts one comparison. */
  method KmpSearch(text: string, pattern: string, lps: seq<int>)
    returns (matches: seq<int>, comparisons: nat)
    requires |pattern| >= 1
    requires IsLps(pattern, lps)
    ensures forall p :: p in matches <==> Occurs(text, pattern, p)
    ensures forall a, b :: 0 <= a < b < |matches| ==> matches[a] < matches[b]
    ensures comparisons <= 2 * |text|
  {
    var n, m := |text|, |pattern|;
    var i, j := 0, 0;
    matches, comparisons := [], 0;
    while i < n
      invariant 0 <= j < m && j <= i <= n
      invariant EndsWith(text, i, pattern, j)
      invariant NoLongerMatch(text, i + 1, pattern, j + 1)
      invariant MatchesUpTo(text, pattern, matches, i)
      invariant forall a, b :: 0 <= a < b < |matches| ==> matches[a] < matches[b]
      invariant forall a :: 0 <= a < |matches| ==> matches[a] + m <= i
      invariant comparisons <= 2 * i - j
      decreases 2 * (n - i) + j
    {
      comparisons := comparisons + 1;
      if pattern[j] == text[i] {
        assert EndsWith(text, i + 1, pattern, j + 1);
        Advance(text, pattern, i + 1, j + 1);
        if j + 1 < m {
          NoMatchEnds(text, pattern, matches, i);
        }
        i, j := i + 1, j + 1;
      } else if j != 0 {
        FallBack(text, pattern, lps, i, j);
        j := lps[j - 1];
      } else {
        assert !EndsWith(text, i + 1, pattern, 1);
        Advance(text, pattern, i + 1, 0);
        NoMatchEnds(text, pattern, matches, i);
        i := i + 1;
      }
      if j == m {
        RecordMatch(text, pattern, matches, i);
        FallBack(text, pattern, lps, i, j);
        matches := matches + [i - j];
        j := lps[j - 1];
      }
    }
  }

  // The step-by-step LPS display.  It copies the array before each write and
  // never writes the original, so the fall-back `length = lps[length - 1]`
  // always reads 0.  The functions below give the values it shows; the
  // search itself uses `ComputeLps`.

  /** One position of the display loop: extend the current prefix, or
      restart from the first character (the fall-back always reaches 0). */
  function ShownStep(p: string, i: nat, len: nat): (r: nat)
    requires len < i < |p|
    ensures r <= len + 1
    ensures r > 0 <==> p[i] == p[len] || p[i] == p[0]
  {
    if p[i] == p[len] then len + 1 else if p[i] == p[0] then 1 else 0
  }

  /** The value of `length` when the display loop reaches position `i`. */
  function ShownLength(p: string, i: nat): (r: nat)
    requires 1 <= i <= |p|
    ensures r < i
  {
    if i == 1 then 0 else ShownStep(p, i - 1, ShownLength(p, i - 1))
  }

  /** The LPS value announced for each position by the display loop. */
  function ShownLps(p: string): (r: seq<int>)
    ensures |r| == |p|
    ensures |p| > 0 ==> r[0] == 0
  {
    seq(|p|, i requires 0 <= i < |p| => if i == 0 then 0 else ShownLength(p, i + 1))
  }

  /** The display loop as written: `lps` stays all zeros, `announced[i]` is
      the value each step shows for position `i`, and the closing message
      prints `lps` itself. */
  method ComputeLpsSteps(pattern: string) returns (announced: seq<int>, final: seq<int>)
    ensures announced == ShownLps(pattern)
    ensures final == seq(|pattern|, _ => 0)
  {
    var m := |pattern|;
    var lps := new int[m](_ => 0);
    var shown := new int[m](_ => 0);
    if m > 0 {
      var length := 0;
      var i := 1;
      while i < m
        invariant 1 <= i <= m
        invariant lps[..] == seq(m, _ => 0)
        invariant 0 <= length < i
        invariant length == ShownLength(pattern, i) ||
                  (i < m && length == 0 && pattern[i] != pattern[ShownLength(pattern, i)])
        invariant forall k :: 0 <= k < i ==> shown[k] == ShownLps(pattern)[k]
        decreases m - i, length
      {
        if pattern[i] == pattern[length] {
          length := length + 1;
          shown[i] := length;
          i := i + 1;
        } else if length != 0 {
          length := lps[length - 1];
        } else {
          shown[i] := 0;
          i := i + 1;
        }
      }
    }
    announced, final := shown[..], lps[..];
  }

  /** The display loop announces a wrong value: at index 5 of "AABAAA" it
      shows 1 although "AA" is a border of "AABAAA". */
  lemma ShownLpsIsWrong()
    ensures ShownLps("AABAAA") == [0, 1, 0, 1, 2, 1]
    ensures !IsLps("AABAAA", ShownLps("AABAAA"))
  {
    var p := "AABAAA";
    assert ShownLength(p, 2) == 1;
    assert ShownLength(p, 3) == 0;
    assert ShownLength(p, 4) == 1;
    assert ShownLength(p, 5) == 2;
    assert ShownLength(p, 6) == 1;
    assert ShownLps(p) == [0, 1, 0, 1, 2, 1];
    assert p[4] == p[0] && p[5] == p[1];
    assert Border(p, 6, 2);
    assert !LongestBorder(p, 5 + 1, ShownLps(p)[5]);
  }

  /** What the submit handler does with the two input fields. */
  datatype Submission =
    | MissingInput
    | PatternTooLong
    | Searched(shown: Option<seq<int>>, lps: seq<int>, matches: seq<int>, comparisons: nat)

  /** The submit handler: refuse an empty field, then a pattern longer than
      the text; otherwise compute the prefix function (and, when the steps
      are shown, the display values) and run the search. */
  method HandleSubmit(text: string, pattern: string, showSteps: bool) returns (r: Submission)
    ensures r.MissingInput? <==> text == "" || pattern == ""
    ensures r.PatternTooLong? <==> text != "" && pattern != "" && |pattern| > |text|
    ensures r.Searched? ==>
      IsLps(pattern, r.lps) &&
      (forall p :: p in r.matches <==> Occurs(text, pattern, p)) &&
      (forall a, b :: 0 <= a < b < |r.matches| ==> r.matches[a] < r.matches[b]) &&
      r.comparisons <= 2 * |text| &&
      (r.shown.Some? <==> showSteps) &&
      (showSteps ==> r.shown.value == ShownLps(pattern))
  {
    if pattern == "" || text == "" {
      return MissingInput;
    }
    if |pattern| > |text| {
      return PatternTooLong;
    }
    var announced, _ := ComputeLpsSteps(pattern);
    var lps := ComputeLps(pattern);
    var matches, comparisons := KmpSearch(text, pattern, lps[..]);
    r := Searched(if showSteps then Some(announced) else None, lps[..], matches, comparisons);
  }
}
