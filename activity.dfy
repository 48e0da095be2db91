/** `activityTrackingService`: the day-keyed activity log in browser
    storage, the week window and the streak read from it, the solved
    totals, and the combined solved status of a problem.  Days are
    numbered consecutively (day `d - 1` is the day before `d`); the
    calendar arithmetic of `Date` is left to the caller, and `FormatDate`
    shows that the storage keys tell days apart. */
module Activity {
  import opened Wrappers
  import opened Text
  import opened Numbering
  import opened Catalogue
  import opened ProblemUserData

  // ------------------------------------------------------ dates

  /** `String(n).padStart(2, '0')`. */
  function Pad2(n: int): string {
    var s := Decimal(n);
    if |s| >= 2 then s else "0" + s
  }

  /** `formatDate`: the year, the 1-based month and the day of the month,
      joined by dashes, the last two padded to two digits. */
  function FormatDate(year: int, month0: int, day: int): string {
    Decimal(year) + "-" + Pad2(month0 + 1) + "-" + Pad2(day)
  }

  lemma Pad2Digits(n: int)
    requires 0 <= n < 100
    ensures Pad2(n) == [DigitChar(n / 10), DigitChar(n % 10)]
  {
    if n >= 10 {
      assert NatDigits(n) == NatDigits(n / 10) + [DigitChar(n % 10)];
    }
  }

  /** Two padded numbers below 100 are equal exactly when their
      renderings are. */
  lemma Pad2Injective(a: int, b: int)
    requires 0 <= a < 100 && 0 <= b < 100 && Pad2(a) == Pad2(b)
    ensures a == b
  {
    Pad2Digits(a);
    Pad2Digits(b);
    assert DigitChar(a / 10) == DigitChar(b / 10) && DigitChar(a % 10) == DigitChar(b % 10);
  }

  /** Where the year, month and day sit inside a date key. */
  lemma FormatDateParts(y: int, m: int, d: int)
    requires 0 <= m < 12 && 1 <= d <= 31
    ensures var k, a := FormatDate(y, m, d), Decimal(y);
            |k| == |a| + 6 && k[..|a|] == a
            && k[|a| + 1..|a| + 3] == Pad2(m + 1) && k[|a| + 4..] == Pad2(d)
  {
    Pad2Digits(m + 1);
    Pad2Digits(d);
  }

  /** The key of a date is the year followed by `-MM-DD`; two dates with a
      month index in 0..11 and a day in 1..31 get the same key only when
      they are the same date. */
  lemma FormatDateSpec(y1: int, m1: int, d1: int, y2: int, m2: int, d2: int)
    requires 0 <= m1 < 12 && 1 <= d1 <= 31 && 0 <= m2 < 12 && 1 <= d2 <= 31
    ensures |FormatDate(y1, m1, d1)| == |Decimal(y1)| + 6
    ensures FormatDate(y1, m1, d1) == FormatDate(y2, m2, d2) ==> y1 == y2 && m1 == m2 && d1 == d2
  {
    FormatDateParts(y1, m1, d1);
    FormatDateParts(y2, m2, d2);
    var k1, k2 := FormatDate(y1, m1, d1), FormatDate(y2, m2, d2);
    if k1 == k2 {
      var a, b := Decimal(y1), Decimal(y2);
      assert a == b;
      DecimalInjective(y1, y2);
      Pad2Injective(m1 + 1, m2 + 1);
      Pad2Injective(d1, d2);
    }
  }

  // ------------------------------------------------------ the log

  /** The stored log: absent, present but not parseable, or a map from
      days to counts. */
  datatype LogState = Missing | Unreadable | Parsed(log: map<int, int>)

  /** `log[key] || 0`. */
  function CountOn(log: map<int, int>, day: int): int {
    if day in log then log[day] else 0
  }

  /** `log[key] && log[key] > 0`. */
  predicate Active(log: map<int, int>, day: int) {
    day in log && log[day] > 0
  }

  /** The state after `logActivity(count)` on `today`: a missing log
      starts from `{}`, an unreadable one is left alone. */
  function Logged(state: LogState, today: int, count: int): LogState {
    match state
    case Missing => Parsed(map[today := count])
    case Unreadable => Unreadable
    case Parsed(log) => Parsed(log[today := CountOn(log, today) + count])
  }

  /** The seven counts `getWeekActivity` returns, oldest first. */
  function Week(state: LogState, today: int): seq<int> {
    if !state.Parsed? then [0, 0, 0, 0, 0, 0, 0]
    else seq(7, j requires 0 <= j < 7 => CountOn(state.log, today - (6 - j)))
  }

  /** Slot `6 - i` of the week is the count of `i` days ago, and the count
      for a missing or unreadable log is seven zeros. */
  lemma WeekSpec(state: LogState, today: int, i: int)
    requires 0 <= i < 7
    ensures |Week(state, today)| == 7
    ensures state.Parsed? ==> Week(state, today)[6 - i] == CountOn(state.log, today - i)
    ensures !state.Parsed? ==> Week(state, today)[6 - i] == 0
  {
  }

  /** Logging adds the count to today's entry, reads back on every other
      day as before, and shows up in the last slot of the week only. */
  lemma LoggedSpec(state: LogState, today: int, count: int, day: int, j: int)
    requires state.Parsed? || state.Missing?
    requires 0 <= j < 6
    ensures var after := Logged(state, today, count).log;
            var before := if state.Parsed? then state.log else map[];
            CountOn(after, today) == CountOn(before, today) + count
            && (day != today ==> CountOn(after, day) == CountOn(before, day))
            && Week(Logged(state, today, count), today)[6] == Week(state, today)[6] + count
            && Week(Logged(state, today, count), today)[j] == Week(state, today)[j]
  {
    var after := Logged(state, today, count);
    assert Week(after, today)[6] == CountOn(after.log, today);
    assert Week(after, today)[j] == CountOn(after.log, today - (6 - j));
    if state.Parsed? {
      assert Week(state, today)[6] == CountOn(state.log, today);
      assert Week(state, today)[j] == CountOn(state.log, today - (6 - j));
    }
  }

  /** The length of the run of active days ending on `day`. */
  function Run(log: map<int, int>, day: int): nat
    decreases ActiveUpTo(log, day)
  {
    if Active(log, day) then
      ActiveUpToShrinks(log, day);
      1 + Run(log, day - 1)
    else 0
  }

  /** The active days up to `day`; finite because the log is. */
  function ActiveUpTo(log: map<int, int>, day: int): set<int> {
    set d | d in log.Keys && d <= day && log[d] > 0
  }

  /** An active day leaves the set when the bound moves before it. */
  lemma ActiveUpToShrinks(log: map<int, int>, day: int)
    requires Active(log, day)
    ensures ActiveUpTo(log, day - 1) < ActiveUpTo(log, day)
  {
    assert day in ActiveUpTo(log, day);
  }

  /** The run ending on `day` covers `n` active days and stops at an
      inactive one. */
  lemma {:induction false} RunSpec(log: map<int, int>, day: int)
    ensures forall d :: day - Run(log, day) < d <= day ==> Active(log, d)
    ensures !Active(log, day - Run(log, day))
    decreases ActiveUpTo(log, day)
  {
    if Active(log, day) {
      ActiveUpToShrinks(log, day);
      RunSpec(log, day - 1);
    }
  }

  /** The run ending on `day` only looks at days up to `day`. */
  lemma {:induction false} RunFrame(a: map<int, int>, b: map<int, int>, day: int)
    requires forall d :: d <= day ==> Active(a, d) == Active(b, d)
    ensures Run(a, day) == Run(b, day)
    decreases ActiveUpTo(a, day)
  {
    if Active(a, day) {
      ActiveUpToShrinks(a, day);
      RunFrame(a, b, day - 1);
    }
  }

  /** The streak `calculateStreak` computes as written: 0 when neither
      today nor yesterday is active, otherwise the run of active days
      counted from today. */
  function AsWrittenStreak(state: LogState, today: int): nat {
    if !state.Parsed? then 0
    else if !Active(state.log, today) && !Active(state.log, today - 1) then 0
    else Run(state.log, today)
  }

  /** The streak the function is meant to compute: the run ending today,
      or the run ending yesterday while today has no activity yet. */
  function Streak(state: LogState, today: int): nat {
    if !state.Parsed? then 0
    else if Active(state.log, today) then Run(state.log, today)
    else Run(state.log, today - 1)
  }

  /** As written, the yesterday check is dead: the count starts at today,
      so a day without activity yet always gives 0. */
  lemma AsWrittenIsRunFromToday(state: LogState, today: int)
    requires state.Parsed?
    ensures AsWrittenStreak(state, today) == Run(state.log, today)
  {
  }

  /** The input that shows it: activity yesterday only. */
  lemma AsWrittenDropsYesterday(today: int)
    ensures AsWrittenStreak(Parsed(map[today - 1 := 1]), today) == 0
    ensures Streak(Parsed(map[today - 1 := 1]), today) == 1
  {
    var log := map[today - 1 := 1];
    assert !Active(log, today - 2);
    assert Run(log, today - 2) == 0;
  }

  /** The streak is a maximal run of active days ending today or, when
      today is not active, yesterday; it is positive exactly when one of
      the two days is active. */
  lemma StreakSpec(state: LogState, today: int)
    requires state.Parsed?
    ensures var n := Streak(state, today);
            var last := if Active(state.log, today) then today else today - 1;
            (forall d :: last - n < d <= last ==> Active(state.log, d))
            && !Active(state.log, last - n)
            && (n > 0 <==> Active(state.log, today) || Active(state.log, today - 1))
  {
    var last := if Active(state.log, today) then today else today - 1;
    RunSpec(state.log, last);
  }

  /** Logging a positive amount today on a log whose entries are not
      negative extends yesterday's run by one day. */
  lemma LoggingExtendsStreak(state: LogState, today: int, count: int)
    requires state.Parsed? || state.Missing?
    requires count > 0
    requires state.Parsed? ==> forall d :: d in state.log ==> state.log[d] >= 0
    ensures var before := if state.Parsed? then state.log else map[];
            Streak(Logged(state, today, count), today) == 1 + Run(before, today - 1)
  {
    var before := if state.Parsed? then state.log else map[];
    var after := Logged(state, today, count).log;
    assert Active(after, today);
    RunFrame(after, before, today - 1);
  }

  /** The stored activity log entry of browser storage. */
  class ActivityStorage {
    var state: LogState

    constructor(state: LogState)
      ensures this.state == state
    {
      this.state := state;
    }

    /** `logActivity`. */
    method LogActivity(today: int, count: int)
      modifies this
      ensures state == Logged(old(state), today, count)
    {
      match state {
        case Missing =>
          state := Parsed(map[today := count]);
        case Unreadable =>
        case Parsed(log) =>
          var current := if today in log then log[today] else 0;
          state := Parsed(log[today := current + count]);
      }
    }

    /** `getWeekActivity`. */
    method GetWeekActivity(today: int) returns (week: seq<int>)
      ensures week == Week(state, today)
    {
      if !state.Parsed? {
        return [0, 0, 0, 0, 0, 0, 0];
      }
      var log := state.log;
      var slots := new int[7](_ => 0);
      for i := 0 to 7
        invariant forall j :: 0 <= j < 7 - i ==> slots[j] == 0
        invariant forall j :: 7 - i <= j < 7 ==> slots[j] == CountOn(log, today - (6 - j))
      {
        var key := today - i;
        slots[6 - i] := if key in log then log[key] else 0;
      }
      week := slots[..];
    }

    /** `calculateStreak` as written. */
    method CalculateStreak(today: int) returns (streak: nat)
      ensures streak == AsWrittenStreak(state, today)
    {
      if !state.Parsed? {
        return 0;
      }
      var log := state.log;
      if !(today in log && log[today] > 0) && !(today - 1 in log && log[today - 1] > 0) {
        return 0;
      }
      streak := 0;
      var i := 0;
      while today - i in log && log[today - i] > 0
        invariant streak == i
        invariant Run(log, today) == i + Run(log, today - i)
        decreases ActiveUpTo(log, today - i)
      {
        ActiveUpToShrinks(log, today - i);
        streak := streak + 1;
        i := i + 1;
      }
    }
  }

  // ------------------------------------------------------ totals

  /** `Object.values(userData).filter(item => item.status === 'Solved').length`. */
  function CountSolved(store: Store): nat {
    if store == [] then 0
    else (if store[0].1.status == Solved then 1 else 0) + CountSolved(store[1..])
  }

  /** Writing an entry changes the count by what it replaces and what it
      writes: one less if a solved entry is overwritten, one more if the
      new entry is solved. */
  lemma {:induction false} CountSolvedPut(store: Store, key: string, e: Entry)
    ensures var was := Lookup(store, key);
            CountSolved(Put(store, key, e)) + (if was.Some? && was.value.status == Solved then 1 else 0)
              == CountSolved(store) + (if e.status == Solved then 1 else 0)
  {
    var p := Put(store, key, e);
    if store == [] {
      assert p[1..] == [];
    } else if store[0].0 == key {
      assert p[0] == (key, e) && p[1..] == store[1..];
    } else {
      CountSolvedPut(store[1..], key, e);
      assert p[0] == store[0] && p[1..] == Put(store[1..], key, e);
    }
  }

  /** Marking a problem solved that was not solved before adds one to the
      platform count. */
  lemma SolvingCountsOnce(store: Store, id: int, source: string)
    requires GetStatus(store, id, source) != Solved
    ensures CountSolved(UpdateStatus(store, id, Solved, source)) == CountSolved(store) + 1
  {
    var key := CompositeId(id, source);
    CountSolvedPut(store, key, Current(store, key).(status := Solved));
  }

  datatype Totals = Totals(leetcode: int, codeforces: int, platform: int, total: int)

  datatype ActivityData = ActivityData(streak: int, lastWeek: seq<int>, totalSolved: Totals)

  /** `getSolvedProblemStats`: each site's total counts when its fetch
      succeeded (`None` otherwise), the stored user data (`None` when
      absent or unreadable) gives the platform count, and the log gives
      the week and the streak, the latter from `calculateStreak` as
      written. */
  function SolvedStats(leetcode: Option<int>, codeforces: Option<int>, userData: Option<Store>,
                       state: LogState, today: int): ActivityData
  {
    var lc := leetcode.GetOr(0);
    var cf := codeforces.GetOr(0);
    var platform := if userData.Some? then CountSolved(userData.value) else 0;
    ActivityData(AsWrittenStreak(state, today), Week(state, today), Totals(lc, cf, platform, lc + cf + platform))
  }

  lemma {:induction false} CountSolvedBound(store: Store)
    ensures CountSolved(store) <= |store|
  {
    if store != [] {
      CountSolvedBound(store[1..]);
    }
  }

  /** The total is the sum of the three counts, a failed fetch counts 0,
      the platform count never exceeds the stored entries, the week is the
      seven-day view of the log, and the streak is the run of active days
      counted from today (0 for an unreadable log). */
  lemma SolvedStatsSpec(leetcode: Option<int>, codeforces: Option<int>, userData: Option<Store>,
                        state: LogState, today: int)
    ensures var t := SolvedStats(leetcode, codeforces, userData, state, today).totalSolved;
            t.total == t.leetcode + t.codeforces + t.platform
            && (leetcode.None? ==> t.leetcode == 0) && (codeforces.None? ==> t.codeforces == 0)
            && (userData.None? ==> t.platform == 0)
            && (userData.Some? ==> 0 <= t.platform <= |userData.value|)
    ensures SolvedStats(leetcode, codeforces, userData, state, today).lastWeek == Week(state, today)
    ensures |SolvedStats(leetcode, codeforces, userData, state, today).lastWeek| == 7
    ensures SolvedStats(leetcode, codeforces, userData, state, today).streak
            == if state.Parsed? then Run(state.log, today) else 0
  {
    if userData.Some? {
      CountSolvedBound(userData.value);
    }
    if state.Parsed? {
      AsWrittenIsRunFromToday(state, today);
    }
  }

  // ------------------------------------------------------ combined status

  /** What the LeetCode and Codeforces statistics report when their fetch
      succeeded; a missing list is an empty one. */
  datatype LeetcodeSolved = LeetcodeSolved(ids: seq<int>, slugs: seq<string>, titles: seq<string>)
  datatype CodeforcesSolved = CodeforcesSolved(ids: seq<string>, names: seq<string>)
  datatype External = External(leetcode: Option<LeetcodeSolved>, codeforces: Option<CodeforcesSolved>)

  /** The results of the regular expressions over a problem's URL and
      title: the LeetCode problem number and slug in the URL, and the
      (contest id, index) pairs the three Codeforces URL patterns and the
      three title patterns capture, in pattern order. */
  datatype Captures = Captures(
    leetcodeUrlId: Option<int>, leetcodeUrlSlug: Option<string>,
    codeforcesUrlPairs: seq<(string, string)>, codeforcesTitlePairs: seq<(string, string)>)

  /** `\w` in the ASCII range. */
  predicate IsWordChar(c: char) {
    'a' <= c <= 'z' || 'A' <= c <= 'Z' || '0' <= c <= '9' || c == '_'
  }

  predicate KeptInTitle(c: char) {
    IsWordChar(c) || IsSpace(c)
  }

  predicate NotSpace(c: char) {
    !IsSpace(c)
  }

  predicate LongWord(w: string) {
    |w| > 2
  }

  /** `title.toLowerCase().replace(/[^\w\s]/g, '').split(/\s+/).filter(w =>
      w.length > 2)`: the empty pieces a split leaves at the ends are too
      short to survive the filter, so the words are the long runs of
      non-space characters. */
  function TitleWords(title: string): seq<string> {
    Filter(Runs(Filter(Lower(title), KeptInTitle), NotSpace), LongWord)
  }

  function InWords(words: seq<string>): string -> bool {
    (w: string) => w in words
  }

  /** How many of the problem's words occur among the solved title's. */
  function MatchCount(titleWords: seq<string>, solvedWords: seq<string>): nat {
    |Filter(titleWords, InWords(solvedWords))|
  }

  /** The counting loop of the fuzzy match. */
  method CountMatches(titleWords: seq<string>, solvedWords: seq<string>) returns (matchCount: nat)
    ensures matchCount == MatchCount(titleWords, solvedWords)
  {
    matchCount := 0;
    for i := 0 to |titleWords|
      invariant matchCount == |Filter(titleWords[..i], InWords(solvedWords))|
    {
      assert titleWords[..i + 1] == titleWords[..i] + [titleWords[i]];
      FilterSnoc(titleWords[..i], titleWords[i], InWords(solvedWords));
      if titleWords[i] in solvedWords {
        matchCount := matchCount + 1;
      }
    }
    assert titleWords[..|titleWords|] == titleWords;
  }

  /** `matchCount / titleWords.length > 0.8` with both titles of at least
      two long words. */
  predicate FuzzyPair(titleWords: seq<string>, solvedTitle: string) {
    var solvedWords := TitleWords(solvedTitle);
    |solvedWords| >= 2 && 5 * MatchCount(titleWords, solvedWords) > 4 * |titleWords|
  }

  predicate FuzzyTitle(title: string, solvedTitles: seq<string>) {
    var words := TitleWords(title);
    |words| >= 2 && exists k :: 0 <= k < |solvedTitles| && FuzzyPair(words, solvedTitles[k])
  }

  /** The count is at most the number of words, and reaches it exactly
      when every word of the problem occurs in the solved title. */
  lemma {:induction false} MatchCountSpec(titleWords: seq<string>, solvedWords: seq<string>)
    ensures MatchCount(titleWords, solvedWords) <= |titleWords|
    ensures MatchCount(titleWords, solvedWords) == |titleWords| <==>
              forall i :: 0 <= i < |titleWords| ==> titleWords[i] in solvedWords
  {
    if titleWords != [] {
      var init := titleWords[..|titleWords| - 1];
      MatchCountSpec(init, solvedWords);
      assert forall i :: 0 <= i < |init| ==> init[i] == titleWords[i];
    }
  }

  /** A title of two or more long words fuzzily matches itself, and a
      title with fewer never matches anything. */
  lemma FuzzyTitleSpec(title: string, solvedTitles: seq<string>)
    ensures |TitleWords(title)| >= 2 && title in solvedTitles ==> FuzzyTitle(title, solvedTitles)
    ensures |TitleWords(title)| < 2 ==> !FuzzyTitle(title, solvedTitles)
  {
    var words := TitleWords(title);
    if |words| >= 2 && title in solvedTitles {
      var k :| 0 <= k < |solvedTitles| && solvedTitles[k] == title;
      MatchCountSpec(words, words);
      assert FuzzyPair(words, solvedTitles[k]);
    }
  }

  predicate Truthy(s: Option<string>) {
    s.Some? && s.value != ""
  }

  /** `title.match(/\d+/g)` read with `parseInt`. */
  function TitleNumbers(title: string): seq<string> {
    Runs(title, IsDigit)
  }

  predicate NumberInTitle(title: string, ids: seq<int>) {
    var runs := TitleNumbers(title);
    exists k :: 0 <= k < |runs| && ParseIntPrefix(runs[k]).Some? && ParseIntPrefix(runs[k]).value in ids
  }

  /** The six LeetCode matches: the id, the slug, the exact title, a
      number in the title, the number or slug in the URL, the fuzzy
      title. */
  predicate LeetcodeMatch(id: int, lc: LeetcodeSolved, problem: Option<Problem>, c: Captures) {
    var slug := if problem.Some? then problem.value.slug else None;
    var title := if problem.Some? then Some(problem.value.title) else None;
    var url := if problem.Some? then problem.value.url else None;
    id in lc.ids
    || (Truthy(slug) && slug.value in lc.slugs)
    || (Truthy(title) && title.value in lc.titles)
    || (Truthy(title) && NumberInTitle(title.value, lc.ids))
    || (Truthy(url) && ((c.leetcodeUrlId.Some? && c.leetcodeUrlId.value in lc.ids)
                        || (c.leetcodeUrlSlug.Some? && c.leetcodeUrlSlug.value in lc.slugs)))
    || (Truthy(title) && FuzzyTitle(title.value, lc.titles))
  }

  /** The three id formats a (contest id, index) pair is tried in. */
  predicate PairHit(pair: (string, string), ids: seq<string>) {
    pair.0 + "-" + pair.1 in ids || pair.0 + pair.1 in ids || pair.0 in ids
  }

  predicate PairsHit(pairs: seq<(string, string)>, ids: seq<string>) {
    exists k :: 0 <= k < |pairs| && PairHit(pairs[k], ids)
  }

  /** The characters `.` does not match when a regular expression has no
      `s` flag: the ECMAScript line terminators. */
  predicate IsLineTerminator(c: char) {
    c == '\n' || c == '\r' || c == '\U{2028}' || c == '\U{2029}'
  }

  /** `/^.*?[-:]\s*(.*?)$/` can match with its `[-:]` at `p`: no line
      terminator before `p` (for `.*?`), and none after the whitespace that
      follows `p` (for `(.*?)$`, since `$` without the `m` flag is the end
      of the title). */
  predicate SeparatorMatches(title: string, p: nat) {
    p < |title|
    && (title[p] == '-' || title[p] == ':')
    && (forall j :: 0 <= j < p ==> !IsLineTerminator(title[j]))
    && (forall j :: SkipSpace(title, p + 1, IsSpace) <= j < |title| ==> !IsLineTerminator(title[j]))
  }

  /** The separator the lazy `.*?` settles on, searching from `i`: the first
      separator at which the rest of the pattern matches. */
  function MatchedSeparator(title: string, i: nat): (r: Option<nat>)
    requires i <= |title|
    requires forall j :: 0 <= j < i ==> !IsLineTerminator(title[j])
    ensures r.Some? ==> i <= r.value && SeparatorMatches(title, r.value)
    ensures r.Some? ==> forall q :: i <= q < r.value ==> !SeparatorMatches(title, q)
    ensures r.None? ==> forall q :: i <= q ==> !SeparatorMatches(title, q)
    decreases |title| - i
  {
    if i == |title| || IsLineTerminator(title[i]) then None
    else if SeparatorMatches(title, i) then Some(i)
    else MatchedSeparator(title, i + 1)
  }

  /** `title.match(/^.*?[-:]\s*(.*?)$/)`: its capture group, trimmed, or the
      trimmed title when the expression does not match. */
  function NamePart(title: string): string {
    var sep := MatchedSeparator(title, 0);
    if sep.Some? then Trim(title[SkipSpace(title, sep.value + 1, IsSpace)..]) else Trim(title)
  }

  /** Without the `s` flag a line terminator after the name keeps the
      expression from matching, so the whole title is the name. */
  lemma NamePartTrailingNewline()
    ensures MatchedSeparator("1-ABCDEFG\n", 0) == None
    ensures NamePart("1-ABCDEFG\n") == "1-ABCDEFG"
  {
    var t := "1-ABCDEFG\n";
    assert MatchedSeparator(t, 0) == None by {
      assert MatchedSeparator(t, 2) == None by {
        assert forall q :: 2 <= q < |t| ==> !(t[q] == '-' || t[q] == ':');
      }
      assert !SeparatorMatches(t, 1) by {
        assert SkipSpace(t, 2, IsSpace) == 2;
        assert IsLineTerminator(t[9]);
      }
    }
    assert Trim(t) == "1-ABCDEFG" by {
      assert StripLeft(t, IsSpace) == t by {
        assert SkipSpace(t, 0, IsSpace) == 0;
      }
      assert BackSpace(t, 10, IsSpace) == 9 by {
        assert BackSpace(t, 9, IsSpace) == 9;
      }
      assert t[..9] == "1-ABCDEFG";
    }
  }

  /** A line terminator inside the whitespace after a separator is consumed
      by `\s*`, so the expression still matches there. */
  lemma NamePartAfterLineBreak()
    ensures MatchedSeparator("a-b-\nc", 0) == Some(3)
    ensures NamePart("a-b-\nc") == "c"
  {
    var t := "a-b-\nc";
    assert !SeparatorMatches(t, 1) by {
      assert SkipSpace(t, 2, IsSpace) == 2;
      assert IsLineTerminator(t[4]);
    }
    assert SkipSpace(t, 4, IsSpace) == 5;
    assert SeparatorMatches(t, 3);
    assert t[5..] == "c";
    assert Trim("c") == "c";
  }

  predicate CodeforcesFuzzy(title: string, names: seq<string>) {
    var name := NamePart(title);
    |name| > 5
    && exists k :: 0 <= k < |names| && |Trim(names[k])| > 5
                   && (Contains(Lower(names[k]), Lower(name)) || Contains(Lower(name), Lower(names[k])))
  }

  /** The five Codeforces matches: the id as a string, the exact title, a
      URL pair, a title pair, the fuzzy name. */
  predicate CodeforcesMatch(id: int, cf: CodeforcesSolved, problem: Option<Problem>, c: Captures) {
    var title := if problem.Some? then Some(problem.value.title) else None;
    var url := if problem.Some? then problem.value.url else None;
    Decimal(id) in cf.ids
    || (Truthy(title) && title.value in cf.names)
    || (Truthy(url) && PairsHit(c.codeforcesUrlPairs, cf.ids))
    || (Truthy(title) && PairsHit(c.codeforcesTitlePairs, cf.ids))
    || (Truthy(title) && CodeforcesFuzzy(title.value, cf.names))
  }

  /** `getCombinedProblemStatus`: a stored 'Solved' or 'Attempted' wins;
      otherwise the site named by the source decides, when its statistics
      were fetched; anything else is 'Not Attempted'. */
  function CombinedStatus(id: int, source: string, stored: Option<Store>, external: Option<External>,
                          problem: Option<Problem>, c: Captures): string
  {
    var local := if stored.Some? then Lookup(stored.value, CompositeId(id, source)) else None;
    var site := Lower(source);
    if local.Some? && local.value.status == Solved then Solved
    else if local.Some? && local.value.status == Attempted then Attempted
    else if external.None? then NotAttempted
    else if Contains(site, "leetcode") && external.value.leetcode.Some? then
      (if LeetcodeMatch(id, external.value.leetcode.value, problem, c) then Solved else NotAttempted)
    else if Contains(site, "codeforces") && external.value.codeforces.Some? then
      (if CodeforcesMatch(id, external.value.codeforces.value, problem, c) then Solved else NotAttempted)
    else NotAttempted
  }

  /** The result is one of the three statuses; the stored status takes
      precedence; without stored progress the result is 'Solved' exactly
      when the site's statistics match the problem, and 'Not Attempted'
      when there are no statistics. */
  lemma CombinedStatusSpec(id: int, source: string, stored: Option<Store>, external: Option<External>,
                           problem: Option<Problem>, c: Captures)
    ensures var r := CombinedStatus(id, source, stored, external, problem, c);
            var local := if stored.Some? then Lookup(stored.value, CompositeId(id, source)) else None;
            var progressed := local.Some? && (local.value.status == Solved || local.value.status == Attempted);
            IsStatus(r)
            && (progressed ==> r == local.value.status)
            && (!progressed && external.None? ==> r == NotAttempted)
            && (!progressed && r == Attempted ==> false)
            && (!progressed && external.Some? && Contains(Lower(source), "leetcode") && external.value.leetcode.Some? ==>
                  (r == Solved <==> LeetcodeMatch(id, external.value.leetcode.value, problem, c)))
  {
  }

  /** A LeetCode problem whose id the statistics list is solved, and a
      Codeforces problem whose id they list as a string is solved, when
      nothing is stored and the source names the site. */
  lemma DirectIdMatch(id: int, source: string, lc: LeetcodeSolved, cf: CodeforcesSolved,
                      problem: Option<Problem>, c: Captures)
    ensures Contains(Lower(source), "leetcode") && id in lc.ids ==>
              CombinedStatus(id, source, None, Some(External(Some(lc), None)), problem, c) == Solved
    ensures Contains(Lower(source), "codeforces") && Decimal(id) in cf.ids ==>
              CombinedStatus(id, source, None, Some(External(None, Some(cf))), problem, c) == Solved
  {
  }
}
