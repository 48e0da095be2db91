/** Character-level string helpers shared by the scrapers and the client:
    ASCII case mapping, whitespace stripping, substring search and decimal
    rendering/parsing of integers.  Whitespace follows each language's own
    set; case mapping (`str.upper/lower`, `toLowerCase`) covers the ASCII
    letters only. */
module Text {
  import opened Wrappers

  /** Whitespace as JavaScript's `trim()`, `\s` and `parseInt` see it:
      the WhiteSpace and LineTerminator characters of ECMAScript (tab, the
      line breaks, vertical tab, form feed, the space separators and the
      byte-order mark). */
  predicate IsSpace(c: char) {
    c == '\t' || c == '\n' || c == '\U{B}' || c == '\U{C}' || c == '\r' || c == ' '
    || c == '\U{A0}' || c == '\U{1680}' || '\U{2000}' <= c <= '\U{200A}'
    || c == '\U{2028}' || c == '\U{2029}' || c == '\U{202F}' || c == '\U{205F}'
    || c == '\U{3000}' || c == '\U{FEFF}'
  }

  /** Whitespace as Python's `str.strip()` and `int()` see it
      (`str.isspace`): JavaScript's set without the byte-order mark, plus
      the four information separators 0x1C-0x1F and NEL (0x85). */
  predicate IsPySpace(c: char) {
    '\t' <= c <= '\r' || '\U{1C}' <= c <= '\U{1F}' || c == ' ' || c == '\U{85}'
    || c == '\U{A0}' || c == '\U{1680}' || '\U{2000}' <= c <= '\U{200A}'
    || c == '\U{2028}' || c == '\U{2029}' || c == '\U{202F}' || c == '\U{205F}'
    || c == '\U{3000}'
  }

  /** The two whitespace sets differ in exactly six characters. */
  lemma SpaceSetsDiffer(c: char)
    ensures IsPySpace(c) && !IsSpace(c) <==> '\U{1C}' <= c <= '\U{1F}' || c == '\U{85}'
    ensures IsSpace(c) && !IsPySpace(c) <==> c == '\U{FEFF}'
  {
  }

  function LowerChar(c: char): (r: char)
    ensures 'A' <= c <= 'Z' ==> r as int == c as int + 32
    ensures !('A' <= c <= 'Z') ==> r == c
  {
    if 'A' <= c <= 'Z' then (c as int + 32) as char else c
  }

  function UpperChar(c: char): (r: char)
    ensures 'a' <= c <= 'z' ==> r as int == c as int - 32
    ensures !('a' <= c <= 'z') ==> r == c
  {
    if 'a' <= c <= 'z' then (c as int - 32) as char else c
  }

  function Lower(s: string): (r: string)
    ensures |r| == |s| && forall i :: 0 <= i < |s| ==> r[i] == LowerChar(s[i])
  {
    seq(|s|, i requires 0 <= i < |s| => LowerChar(s[i]))
  }

  function Upper(s: string): (r: string)
    ensures |r| == |s| && forall i :: 0 <= i < |s| ==> r[i] == UpperChar(s[i])
  {
    seq(|s|, i requires 0 <= i < |s| => UpperChar(s[i]))
  }

  /** Lower-casing an upper-cased string is the same as lower-casing the
      original: the two case maps agree on every ASCII letter. */
  lemma LowerOfUpper(s: string)
    ensures Lower(Upper(s)) == Lower(s)
  {
    forall i | 0 <= i < |s| ensures Lower(Upper(s))[i] == Lower(s)[i] {
      var c := s[i];
      if 'a' <= c <= 'z' {
        assert UpperChar(c) as int == c as int - 32;
      }
    }
  }

  /** The first position at or after `i` that holds no `white` character,
      or `|s|`. */
  function SkipSpace(s: string, i: nat, white: char -> bool): (k: nat)
    requires i <= |s|
    ensures i <= k <= |s| && (k == |s| || !white(s[k]))
    ensures forall j :: i <= j < k ==> white(s[j])
    decreases |s| - i
  {
    if i < |s| && white(s[i]) then SkipSpace(s, i + 1, white) else i
  }

  /** The last position at or before `j` with no `white` character just
      before it, or 0. */
  function BackSpace(s: string, j: nat, white: char -> bool): (k: nat)
    requires j <= |s|
    ensures k <= j && (k == 0 || !white(s[k - 1]))
    ensures forall i :: k <= i < j ==> white(s[i])
  {
    if j > 0 && white(s[j - 1]) then BackSpace(s, j - 1, white) else j
  }

  function StripLeft(s: string, white: char -> bool): (r: string)
    ensures |r| <= |s| && r == s[|s| - |r|..]
    ensures r == [] || !white(r[0])
    ensures forall i :: 0 <= i < |s| - |r| ==> white(s[i])
  {
    s[SkipSpace(s, 0, white)..]
  }

  function StripRight(s: string, white: char -> bool): (r: string)
    ensures |r| <= |s| && r == s[..|r|]
    ensures r == [] || !white(r[|r| - 1])
    ensures forall i :: |r| <= i < |s| ==> white(s[i])
  {
    s[..BackSpace(s, |s|, white)]
  }

  /** Stripping the characters `white` accepts from both ends: the result
      is a contiguous piece of the input with none of them at either end. */
  function StripBy(s: string, white: char -> bool): (r: string)
    ensures exists k :: OccursAt(s, r, k)
    ensures r == [] || (!white(r[0]) && !white(r[|r| - 1]))
  {
    var l := StripLeft(s, white);
    var r := StripRight(l, white);
    var k := |s| - |l|;
    assert r == l[..|r|];
    assert r == s[k..k + |r|];
    assert OccursAt(s, r, k);
    r
  }

  /** Only whitespace is removed: everything before the piece and
      everything after it is `white`. */
  lemma StripBySpec(s: string, white: char -> bool)
    ensures var k := SkipSpace(s, 0, white);
            OccursAt(s, StripBy(s, white), k)
            && (forall i :: 0 <= i < k ==> white(s[i]))
            && (forall i :: k + |StripBy(s, white)| <= i < |s| ==> white(s[i]))
  {
    var k := SkipSpace(s, 0, white);
    var l := StripLeft(s, white);
    var r := StripRight(l, white);
    assert l == s[k..];
    assert r == s[k..k + |r|];
    forall i | k + |r| <= i < |s| ensures white(s[i]) {
      assert s[i] == l[i - k];
    }
  }

  /** Python's `str.strip()`. */
  function Strip(s: string): (r: string)
    ensures exists k :: OccursAt(s, r, k)
    ensures r == [] || (!IsPySpace(r[0]) && !IsPySpace(r[|r| - 1]))
  {
    StripBy(s, IsPySpace)
  }

  /** JavaScript's `trim()`. */
  function Trim(s: string): (r: string)
    ensures exists k :: OccursAt(s, r, k)
    ensures r == [] || (!IsSpace(r[0]) && !IsSpace(r[|r| - 1]))
  {
    StripBy(s, IsSpace)
  }

  /** `needle` occurs in `hay` (Python `in`, JavaScript `includes`). */
  ghost predicate OccursAt(hay: string, needle: string, i: int) {
    0 <= i && i + |needle| <= |hay| && hay[i..i + |needle|] == needle
  }

  function Contains(hay: string, needle: string): (r: bool)
    ensures r <==> exists i :: OccursAt(hay, needle, i)
    decreases |hay|
  {
    if needle <= hay then
      assert OccursAt(hay, needle, 0);
      true
    else if hay == [] then
      assert forall i :: !OccursAt(hay, needle, i);
      false
    else
      var r := Contains(hay[1..], needle);
      assert forall i :: OccursAt(hay[1..], needle, i) <==> OccursAt(hay, needle, i + 1);
      assert !OccursAt(hay, needle, 0);
      assert forall i :: OccursAt(hay, needle, i) ==> i == 0 || OccursAt(hay[1..], needle, i - 1);
      r
  }

  function DigitChar(d: int): (c: char)
    requires 0 <= d < 10
    ensures '0' <= c <= '9' && c as int - '0' as int == d
  {
    ('0' as int + d) as char
  }

  predicate IsDigit(c: char) {
    '0' <= c <= '9'
  }

  /** Decimal digits of a natural number, without leading zeros. */
  function NatDigits(n: nat): (r: string)
    ensures |r| >= 1 && forall i :: 0 <= i < |r| ==> IsDigit(r[i])
    ensures n > 0 ==> r[0] != '0'
  {
    if n < 10 then [DigitChar(n)] else NatDigits(n / 10) + [DigitChar(n % 10)]
  }

  /** JavaScript `String(n)` / Python `str(n)` for an integer. */
  function Decimal(n: int): (r: string)
    ensures |r| >= 1
    ensures n >= 0 ==> forall i :: 0 <= i < |r| ==> IsDigit(r[i])
    ensures n < 0 ==> r[0] == '-'
  {
    if n >= 0 then NatDigits(n) else "-" + NatDigits(-n)
  }

  function DigitOf(c: char): (d: nat)
    requires IsDigit(c)
    ensures d < 10
  {
    c as int - '0' as int
  }

  /** Value of a non-empty run of decimal digits. */
  function DigitsValue(s: string): (v: nat)
    requires forall i :: 0 <= i < |s| ==> IsDigit(s[i])
  {
    if s == [] then 0 else 10 * DigitsValue(s[..|s| - 1]) + DigitOf(s[|s| - 1])
  }

  lemma {:induction false} NatDigitsValue(n: nat)
    ensures DigitsValue(NatDigits(n)) == n
  {
    if n >= 10 {
      var d := NatDigits(n);
      assert d[..|d| - 1] == NatDigits(n / 10);
      NatDigitsValue(n / 10);
    }
  }

  /** Longest prefix of `s` made of decimal digits. */
  function DigitPrefix(s: string): (r: string)
    ensures r <= s && forall i :: 0 <= i < |r| ==> IsDigit(s[i])
    ensures |r| < |s| ==> !IsDigit(s[|r|])
  {
    if s != [] && IsDigit(s[0]) then [s[0]] + DigitPrefix(s[1..]) else []
  }

  lemma DigitPrefixOfDigits(s: string)
    requires forall i :: 0 <= i < |s| ==> IsDigit(s[i])
    ensures DigitPrefix(s) == s
  {
  }

  /** JavaScript `parseInt(s)` on a string that has no '-' in it: leading
      whitespace, an optional '+', then the longest run of digits; no digit
      at all gives NaN (None). */
  function ParseIntPrefix(s: string): (r: Option<int>)
    ensures r.Some? ==> r.value >= 0
  {
    var t := StripLeft(s, IsSpace);
    var u := if t != [] && t[0] == '+' then t[1..] else t;
    var d := DigitPrefix(u);
    if d == [] then None else Some(DigitsValue(d))
  }

  /** `parseInt(String(n))` gives `n` back for every natural number. */
  lemma ParseDecimal(n: nat)
    ensures ParseIntPrefix(Decimal(n)) == Some(n)
  {
    var s := NatDigits(n);
    assert StripLeft(s, IsSpace) == s by {
      assert !IsSpace(s[0]);
    }
    DigitPrefixOfDigits(s);
    NatDigitsValue(n);
  }

  /** `parseInt(String(n))` is one-to-one: two integers with the same
      decimal rendering are equal. */
  lemma DecimalInjective(a: int, b: int)
    requires Decimal(a) == Decimal(b)
    ensures a == b
  {
    DecimalSign(a);
    DecimalSign(b);
    if a >= 0 {
      NatDecimalInjective(a, b);
    } else {
      NegativeDecimal(a);
      NegativeDecimal(b);
      NatDecimalInjective(-a, -b);
    }
  }

  lemma NatDecimalInjective(a: nat, b: nat)
    requires Decimal(a) == Decimal(b)
    ensures a == b
  {
    ParseDecimal(a);
    ParseDecimal(b);
    assert Some(a) == ParseIntPrefix(Decimal(a)) == ParseIntPrefix(Decimal(b)) == Some(b);
  }

  /** The rendering starts with '-' exactly for negative numbers. */
  lemma DecimalSign(a: int)
    ensures Decimal(a)[0] == '-' <==> a < 0
  {
    if a >= 0 {
      assert IsDigit(Decimal(a)[0]);
    }
  }

  lemma NegativeDecimal(a: int)
    requires a < 0
    ensures Decimal(a)[1..] == Decimal(-a)
  {
    assert Decimal(a) == "-" + NatDigits(-a);
  }

  /** `sep.join(parts)` (Python) / `parts.join(sep)` (JavaScript). */
  function Join(parts: seq<string>, sep: string): (r: string)
  {
    if parts == [] then ""
    else if |parts| == 1 then parts[0]
    else parts[0] + sep + Join(parts[1..], sep)
  }

  predicate Lacks(s: string, c: char) {
    forall i :: 0 <= i < |s| ==> s[i] != c
  }

  /** JavaScript `s.split(c)` on a one-character separator: the pieces
      between the occurrences of `c`, empty pieces included. */
  function Split(s: string, c: char): (r: seq<string>)
    ensures |r| >= 1
  {
    if s == [] then [""]
    else
      var rest := Split(s[1..], c);
      if s[0] == c then [""] + rest else [[s[0]] + rest[0]] + rest[1..]
  }

  /** No piece holds the separator, and joining the pieces with it gives
      the string back. */
  lemma {:induction false} SplitSpec(s: string, c: char)
    ensures forall k :: 0 <= k < |Split(s, c)| ==> Lacks(Split(s, c)[k], c)
    ensures Join(Split(s, c), [c]) == s
  {
    if s != [] {
      var rest := Split(s[1..], c);
      SplitSpec(s[1..], c);
      if s[0] != c {
        var r := Split(s, c);
        assert r[0] == [s[0]] + rest[0];
        assert forall k :: 1 <= k < |r| ==> r[k] == rest[k];
        if |rest| == 1 {
          assert Join(r, [c]) == [s[0]] + rest[0];
        } else {
          assert r[1..] == rest[1..];
          assert Join(r, [c]) == [s[0]] + rest[0] + [c] + Join(rest[1..], [c]);
        }
      }
    }
  }

  /** A string without the separator is a single piece. */
  lemma {:induction false} SplitLacking(s: string, c: char)
    requires Lacks(s, c)
    ensures Split(s, c) == [s]
  {
    if s != [] {
      assert Lacks(s[1..], c) by {
        forall i | 0 <= i < |s[1..]| ensures s[1..][i] != c {
          assert s[1..][i] == s[i + 1];
        }
      }
      SplitLacking(s[1..], c);
      assert s == [s[0]] + s[1..];
    }
  }

  /** Splitting at the first separator: the text in front of it is the
      first piece. */
  lemma {:induction false} SplitAt(a: string, c: char, b: string)
    requires Lacks(a, c)
    ensures Split(a + [c] + b, c) == [a] + Split(b, c)
  {
    if a == [] {
      assert (a + [c] + b)[1..] == b;
    } else {
      assert Lacks(a[1..], c) by {
        forall i | 0 <= i < |a[1..]| ensures a[1..][i] != c {
          assert a[1..][i] == a[i + 1];
        }
      }
      SplitAt(a[1..], c, b);
      assert (a + [c] + b)[0] == a[0] != c;
      assert (a + [c] + b)[1..] == a[1..] + [c] + b;
      assert a == [a[0]] + a[1..];
    }
  }

  /** The length of the run of characters passing `inRun` at the front
      of `s`. */
  function RunLength(s: string, inRun: char -> bool): (n: nat)
    ensures n <= |s| && forall i :: 0 <= i < n ==> inRun(s[i])
    ensures n < |s| ==> !inRun(s[n])
  {
    if s == [] || !inRun(s[0]) then 0 else 1 + RunLength(s[1..], inRun)
  }

  /** The maximal runs of characters passing `inRun`, in order: what a
      global regular-expression match of `[...]+` yields, and what a split
      on runs of the other characters yields once its empty pieces are
      dropped. */
  function Runs(s: string, inRun: char -> bool): (r: seq<string>)
    decreases |s|
  {
    if s == [] then []
    else if !inRun(s[0]) then Runs(s[1..], inRun)
    else
      var n := RunLength(s, inRun);
      [s[..n]] + Runs(s[n..], inRun)
  }

  /** Every run is non-empty and made of passing characters only. */
  lemma {:induction false} RunsSpec(s: string, inRun: char -> bool)
    ensures forall k :: 0 <= k < |Runs(s, inRun)| ==>
              Runs(s, inRun)[k] != [] && forall i :: 0 <= i < |Runs(s, inRun)[k]| ==> inRun(Runs(s, inRun)[k][i])
    decreases |s|
  {
    if s != [] {
      if !inRun(s[0]) {
        RunsSpec(s[1..], inRun);
      } else {
        var n := RunLength(s, inRun);
        RunsSpec(s[n..], inRun);
        var r := Runs(s, inRun);
        assert r == [s[..n]] + Runs(s[n..], inRun);
        assert forall k :: 1 <= k < |r| ==> r[k] == Runs(s[n..], inRun)[k - 1];
      }
    }
  }

  /** A string made of passing characters only is a single run. */
  lemma {:induction false} RunsOfRun(s: string, inRun: char -> bool)
    requires s != [] && forall i :: 0 <= i < |s| ==> inRun(s[i])
    ensures Runs(s, inRun) == [s]
  {
    var n := RunLength(s, inRun);
    assert n == |s|;
    assert s[..n] == s && s[n..] == [];
  }
}
