/** `problemsApi.ts`: what the fetch functions do to the catalogue files,
    the bookmark lookup over the stored user data, and the three
    paginated queries (filter stages, optional sort, page clamp and
    slice).  The file contents, the stored user data and the clock are
    parameters. */
module ProblemsApi {
  import opened Wrappers
  import opened Text
  import opened Sorting
  import opened Numbering
  import opened Catalogue
  import opened ProblemUserData
  import Codeforces

  // ------------------------------------------------------ fetching

  datatype Metadata = Metadata(totalProblems: int, lastUpdated: string)

  datatype Response = Response(metadata: Option<Metadata>, problems: seq<Problem>)

  /** What a fetch function returns when the request, the status or the
      parse fails. */
  function EmptyResponse(now: string): Response {
    Response(Some(Metadata(0, now)), [])
  }

  /** `problems.map(p => ({...p, source}))`. */
  function Tagged(problems: seq<Problem>, source: string): seq<Problem> {
    seq(|problems|, i requires 0 <= i < |problems| => problems[i].(source := Some(source)))
  }

  /** `fetchLeetcodeProblems` on the parsed file (`None` when the fetch
      fails). */
  function FetchLeetcode(file: Option<Response>, now: string): Response {
    if file.None? then EmptyResponse(now)
    else file.value.(problems := Tagged(file.value.problems, "leetcode"))
  }

  /** `fetchCodechefProblems`. */
  function FetchCodechef(file: Option<Response>, now: string): Response {
    if file.None? then EmptyResponse(now)
    else file.value.(problems := Tagged(file.value.problems, "codechef"))
  }

  /** `problem.tags && problem.tags.length > 0`. */
  predicate HasTags(p: Problem) {
    p.tags.Some? && |p.tags.value| > 0
  }

  /** `fetchCodeforcesProblems`: problems without tags are dropped and the
      count in the metadata is reset to what is left. */
  function FetchCodeforces(file: Option<Response>, now: string): Response {
    if file.None? then EmptyResponse(now)
    else
      var kept := Tagged(Filter(file.value.problems, HasTags), "codeforces");
      var metadata := file.value.metadata;
      Response(if metadata.Some? then Some(metadata.value.(totalProblems := |kept|)) else None, kept)
  }

  /** The fetched problems all carry the source; for LeetCode they are the
      file's problems one for one. */
  lemma FetchLeetcodeSpec(file: Option<Response>, now: string)
    ensures file.None? ==> FetchLeetcode(file, now) == EmptyResponse(now)
    ensures file.Some? ==>
              var r := FetchLeetcode(file, now);
              |r.problems| == |file.value.problems| && r.metadata == file.value.metadata
              && forall i :: 0 <= i < |r.problems| ==>
                   r.problems[i].source == Some("leetcode")
                   && r.problems[i].(source := None) == file.value.problems[i].(source := None)
  {
  }

  /** Every problem `fetchCodeforcesProblems` returns has tags, comes from
      the file and is tagged 'codeforces'; every file problem with tags is
      returned; the metadata counts exactly what is returned. */
  lemma FetchCodeforcesSpec(file: Option<Response>, now: string, p: Problem)
    requires file.Some?
    ensures var r := FetchCodeforces(file, now);
            (forall i :: 0 <= i < |r.problems| ==> HasTags(r.problems[i]) && r.problems[i].source == Some("codeforces"))
            && (p in file.value.problems && HasTags(p) ==> p.(source := Some("codeforces")) in r.problems)
            && (forall q :: q in r.problems ==> exists i :: 0 <= i < |file.value.problems| && q == file.value.problems[i].(source := Some("codeforces")))
            && (r.metadata.Some? ==> r.metadata.value.totalProblems == |r.problems|)
            && |r.problems| <= |file.value.problems|
  {
    var kept := Filter(file.value.problems, HasTags);
    FilterSpec(file.value.problems, HasTags);
    var r := FetchCodeforces(file, now);
    assert r.problems == Tagged(kept, "codeforces");
    forall i | 0 <= i < |r.problems|
      ensures HasTags(r.problems[i])
    {
      assert kept[i] in kept;
    }
    if p in file.value.problems && HasTags(p) {
      var i :| 0 <= i < |kept| && kept[i] == p;
      assert r.problems[i] == p.(source := Some("codeforces"));
    }
    forall q | q in r.problems
      ensures exists i :: 0 <= i < |file.value.problems| && q == file.value.problems[i].(source := Some("codeforces"))
    {
      var k :| 0 <= k < |r.problems| && r.problems[k] == q;
      assert kept[k] in file.value.problems;
      var i :| 0 <= i < |file.value.problems| && file.value.problems[i] == kept[k];
    }
  }

  // ------------------------------------------------------ bookmarks

  /** `parseInt(key.split('-')[1])`: `None` for NaN, including when the
      key has no dash and the piece is `undefined`. */
  function KeyId(key: string): Option<int> {
    var pieces := Split(key, '-');
    if |pieces| > 1 then ParseIntPrefix(pieces[1]) else None
  }

  /** The test of the loop body: the key starts with `source-` and the
      stored value is bookmarked. */
  predicate Wanted(source: string, entry: (string, Entry)) {
    source + "-" <= entry.0 && entry.1.bookmarked
  }

  /** The id an entry contributes: the parsed key when the entry is
      wanted and the key parses. */
  function Pick(source: string): ((string, Entry)) -> Option<int> {
    (e: (string, Entry)) => if Wanted(source, e) then KeyId(e.0) else None
  }

  /** The values `pick` yields over `entries`, in order. */
  function Picked<E>(entries: seq<E>, pick: E -> Option<int>): seq<int> {
    if entries == [] then []
    else
      var prev := Picked(entries[..|entries| - 1], pick);
      var v := pick(entries[|entries| - 1]);
      if v.Some? then prev + [v.value] else prev
  }

  lemma {:induction false} PickedSpec<E>(entries: seq<E>, pick: E -> Option<int>, x: int)
    ensures x in Picked(entries, pick) <==> exists i :: 0 <= i < |entries| && pick(entries[i]) == Some(x)
  {
    if entries != [] {
      var n := |entries| - 1;
      var init := entries[..n];
      PickedSpec(init, pick, x);
      if x in Picked(init, pick) {
        var i :| 0 <= i < |init| && pick(init[i]) == Some(x);
        assert entries[i] == init[i];
      }
      if exists i :: 0 <= i < |entries| && pick(entries[i]) == Some(x) {
        var i :| 0 <= i < |entries| && pick(entries[i]) == Some(x);
        if i < n {
          assert init[i] == entries[i];
        }
      }
    }
  }

  /** The ids the loop collects from `entries`, in order. */
  function BookmarkedIds(source: string, entries: Store): seq<int> {
    Picked(entries, Pick(source))
  }

  /** `getBookmarkedProblems` on the stored user data (`None` when nothing
      is stored or the stored text does not parse). */
  function StoredBookmarks(source: string, stored: Option<Store>): seq<int> {
    if stored.None? then [] else BookmarkedIds(source, stored.value)
  }

  /** `getBookmarkedProblems`. */
  method GetBookmarkedProblems(source: string, stored: Option<Store>) returns (ids: seq<int>)
    ensures ids == StoredBookmarks(source, stored)
  {
    if stored.None? {
      return [];
    }
    var entries := stored.value;
    ids := [];
    for i := 0 to |entries|
      invariant ids == Picked(entries[..i], Pick(source))
    {
      assert entries[..i + 1][..i] == entries[..i];
      var (key, value) := entries[i];
      if source + "-" <= key && value.bookmarked {
        var id := KeyId(key);
        if id.Some? {
          ids := ids + [id.value];
        }
      }
    }
    assert entries[..|entries|] == entries;
  }

  /** Entry `e` under `source` yields the id `x`. */
  predicate Yields(source: string, e: (string, Entry), x: int) {
    Wanted(source, e) && KeyId(e.0) == Some(x)
  }

  /** An id is collected exactly when some stored entry under `source`
      is bookmarked and its key parses to that id. */
  lemma BookmarkedIdsSpec(source: string, entries: Store, x: int)
    ensures x in BookmarkedIds(source, entries) <==>
              exists i :: 0 <= i < |entries| && Yields(source, entries[i], x)
  {
    PickedSpec(entries, Pick(source), x);
    assert forall i :: 0 <= i < |entries| ==> (Pick(source)(entries[i]) == Some(x) <==> Yields(source, entries[i], x));
  }

  /** The id of a composite key reads back: `parseInt` of the piece after
      the dash is the id, for a dash-free source and a non-negative id. */
  lemma KeyIdOfCompositeId(id: nat, source: string)
    requires Lacks(source, '-')
    ensures KeyId(CompositeId(id, source)) == Some(id)
  {
    var d := Decimal(id);
    assert CompositeId(id, source) == source + ['-'] + d;
    SplitAt(source, '-', d);
    assert Lacks(d, '-') by {
      forall i | 0 <= i < |d| ensures d[i] != '-' {
        assert IsDigit(d[i]);
      }
    }
    SplitLacking(d, '-');
    ParseDecimal(id);
  }

  /** A problem bookmarked under its own source is found by the lookup
      for that source. */
  lemma BookmarkFound(source: string, id: nat, store: Store, i: int)
    requires Lacks(source, '-')
    requires 0 <= i < |store| && store[i].0 == CompositeId(id, source) && store[i].1.bookmarked
    ensures id in StoredBookmarks(source, Some(store))
  {
    KeyIdOfCompositeId(id, source);
    assert Yields(source, store[i], id);
    BookmarkedIdsSpec(source, store, id);
  }

  // ------------------------------------------------------ the sites

  datatype Site = LeetCodeSite | CodeforcesSite | CodeChefSite

  /** The name each query passes to `getBookmarkedProblems`. */
  function DisplayName(site: Site): string {
    match site
    case LeetCodeSite => "LeetCode"
    case CodeforcesSite => "Codeforces"
    case CodeChefSite => "CodeChef"
  }

  /** The source the fetch functions put on every problem, and hence the
      prefix of every composite id written for it. */
  function SourceName(site: Site): string {
    match site
    case LeetCodeSite => "leetcode"
    case CodeforcesSite => "codeforces"
    case CodeChefSite => "codechef"
  }

  /** The lookup the queries make as written: under the display name. */
  function AsWrittenBookmarks(site: Site, stored: Option<Store>): seq<int> {
    StoredBookmarks(DisplayName(site), stored)
  }

  /** The lookup the queries are meant to make: under the source the
      problems carry. */
  function SiteBookmarks(site: Site, stored: Option<Store>): seq<int> {
    StoredBookmarks(SourceName(site), stored)
  }

  /** Every key the client writes starts with a lower-case letter: the
      sources are 'leetcode', 'codeforces', 'codechef' and 'unknown'. */
  predicate LowerCaseKeys(store: Store) {
    forall i :: 0 <= i < |store| ==> store[i].0 != [] && 'a' <= store[i].0[0] <= 'z'
  }

  lemma ClientKeysLowerCase(id: int, source: string)
    requires source in ["leetcode", "codeforces", "codechef", "unknown"]
    ensures CompositeId(id, source) != [] && 'a' <= CompositeId(id, source)[0] <= 'z'
  {
    assert CompositeId(id, source)[0] == source[0];
  }

  /** As written, the lookup never matches a key the client writes: the
      display names start with a capital and the composite ids with a
      lower-case letter, so `bookmarkedOnly` always empties the list. */
  lemma AsWrittenBookmarksEmpty(site: Site, store: Store)
    requires LowerCaseKeys(store)
    ensures AsWrittenBookmarks(site, Some(store)) == []
  {
    var name := DisplayName(site);
    forall i | 0 <= i < |store| ensures !Wanted(name, store[i]) {
    }
    if BookmarkedIds(name, store) != [] {
      var x := BookmarkedIds(name, store)[0];
      BookmarkedIdsSpec(name, store, x);
    }
  }

  /** The input that shows it: LeetCode problem 1 bookmarked by the hook. */
  lemma AsWrittenMissesBookmark()
    ensures var store := [(CompositeId(1, "leetcode"), Entry(NotAttempted, true))];
            AsWrittenBookmarks(LeetCodeSite, Some(store)) == [] && SiteBookmarks(LeetCodeSite, Some(store)) == [1]
  {
    var store := [(CompositeId(1, "leetcode"), Entry(NotAttempted, true))];
    ClientKeysLowerCase(1, "leetcode");
    AsWrittenBookmarksEmpty(LeetCodeSite, store);
    KeyIdOfCompositeId(1, "leetcode");
    assert "leetcode-" <= store[0].0;
    assert BookmarkedIds("leetcode", store) == BookmarkedIds("leetcode", store[..0]) + [1];
  }

  /** With the source the problems carry, every problem bookmarked through
      the hook under that source is found. */
  lemma SiteBookmarksFound(site: Site, id: nat, store: Store, i: int)
    requires 0 <= i < |store| && store[i].0 == CompositeId(id, SourceName(site)) && store[i].1.bookmarked
    ensures id in SiteBookmarks(site, Some(store))
  {
    BookmarkFound(SourceName(site), id, store, i);
  }

  // ------------------------------------------------------ filter stages

  /** A string filter value is in force when it is truthy. */
  predicate Given(v: Option<string>) {
    v.Some? && v.value != ""
  }

  /** `filters.difficulty && filters.difficulty !== 'All'`. */
  predicate DifficultyOn(d: Option<string>) {
    Given(d) && d.value != "All"
  }

  function DifficultyKeep(d: Option<string>): Problem -> bool {
    (p: Problem) => !DifficultyOn(d) || p.difficulty == d.value
  }

  /** The LeetCode difficulty stage: equality with the stored label. */
  function ByDifficulty(s: seq<Problem>, d: Option<string>): seq<Problem> {
    if DifficultyOn(d) then Filter(s, DifficultyKeep(d)) else s
  }

  /** The Codeforces difficulty test: by rating range when the problem has
      points, by the stored label otherwise or for an unknown label. */
  predicate BandKeeps(d: string, p: Problem) {
    if p.points.None? then p.difficulty == d
    else
      var n := p.points.value;
      if d == "Beginner" then n <= 1000
      else if d == "Easy" then n > 1000 && n <= 1300
      else if d == "Lower-Mid" then n > 1300 && n <= 1600
      else if d == "Mid-Level" then n > 1600 && n <= 1900
      else if d == "Upper-Mid" then n > 1900 && n <= 2200
      else if d == "Hard" then n > 2200 && n <= 2500
      else if d == "Very Hard" then n > 2500
      else p.difficulty == d
  }

  function BandKeep(d: Option<string>): Problem -> bool {
    (p: Problem) => !DifficultyOn(d) || BandKeeps(d.value, p)
  }

  function ByBand(s: seq<Problem>, d: Option<string>): seq<Problem> {
    if DifficultyOn(d) then Filter(s, BandKeep(d)) else s
  }

  /** For a problem with points, the range filter keeps it under a label
      exactly when the scraper's rating bands give that label. */
  lemma BandFilterAgrees(d: string, p: Problem)
    requires p.points.Some? && d in Codeforces.BandLabels
    ensures BandKeeps(d, p) <==> Codeforces.Band(p.points.value) == d
  {
    var k :| 0 <= k < |Codeforces.BandLabels| && Codeforces.BandLabels[k] == d;
    Codeforces.BandRanges(k, p.points.value);
  }

  /** `filters.difficulty.includes(p.difficulty || 'Unknown')`. */
  function LabelOrUnknown(p: Problem): string {
    if p.difficulty == "" then "Unknown" else p.difficulty
  }

  predicate LabelsOn(ds: Option<seq<string>>) {
    ds.Some? && |ds.value| > 0
  }

  function LabelsKeep(ds: Option<seq<string>>): Problem -> bool {
    (p: Problem) => !LabelsOn(ds) || LabelOrUnknown(p) in ds.value
  }

  /** The CodeChef difficulty stage: membership in the chosen labels. */
  function ByLabels(s: seq<Problem>, ds: Option<seq<string>>): seq<Problem> {
    if LabelsOn(ds) then Filter(s, LabelsKeep(ds)) else s
  }

  /** LeetCode and Codeforces search any truthy term; CodeChef also
      requires the trimmed term to be non-empty. */
  predicate SearchOn(term: Option<string>, chef: bool) {
    Given(term) && (!chef || Trim(term.value) != "")
  }

  /** The term, lower-cased, occurs in the lower-cased title, or in the
      lower-cased slug (LeetCode, Codeforces) or code (CodeChef). */
  predicate SearchHit(p: Problem, term: string, chef: bool) {
    var needle := Lower(term);
    var other := if chef then p.code else p.slug;
    Contains(Lower(p.title), needle) || (other.Some? && Contains(Lower(other.value), needle))
  }

  function SearchKeep(term: Option<string>, chef: bool): Problem -> bool {
    (p: Problem) => !SearchOn(term, chef) || SearchHit(p, term.value, chef)
  }

  function BySearch(s: seq<Problem>, term: Option<string>, chef: bool): seq<Problem> {
    if SearchOn(term, chef) then Filter(s, SearchKeep(term, chef)) else s
  }

  /** `tags.some(t => t.toLowerCase().includes(w.toLowerCase()))`. */
  function SomeTagHas(tags: seq<string>, w: string): bool {
    tags != [] && (Contains(Lower(tags[0]), Lower(w)) || SomeTagHas(tags[1..], w))
  }

  /** `wanted.some(w => SomeTagHas(tags, w))`. */
  function SomeWanted(tags: seq<string>, wanted: seq<string>): bool {
    wanted != [] && (SomeTagHas(tags, wanted[0]) || SomeWanted(tags, wanted[1..]))
  }

  /** The tag test: a problem without tags fails; otherwise some wanted
      tag occurs, ignoring case, in some tag of the problem. */
  predicate TagHit(tags: Option<seq<string>>, wanted: seq<string>) {
    tags.Some? && |tags.value| > 0 && SomeWanted(tags.value, wanted)
  }

  lemma {:induction false} SomeTagHasSpec(tags: seq<string>, w: string)
    ensures SomeTagHas(tags, w) <==> exists j :: 0 <= j < |tags| && Contains(Lower(tags[j]), Lower(w))
  {
    if tags != [] {
      SomeTagHasSpec(tags[1..], w);
      assert forall j :: 1 <= j < |tags| ==> tags[j] == tags[1..][j - 1];
    }
  }

  lemma {:induction false} SomeWantedSpec(tags: seq<string>, wanted: seq<string>)
    ensures SomeWanted(tags, wanted) <==> exists i :: 0 <= i < |wanted| && SomeTagHas(tags, wanted[i])
  {
    if wanted != [] {
      SomeWantedSpec(tags, wanted[1..]);
      assert forall i :: 1 <= i < |wanted| ==> wanted[i] == wanted[1..][i - 1];
    }
  }

  /** A problem passes the tag filter exactly when one of its tags
      contains one of the wanted tags, ignoring case; a problem without
      tags never passes. */
  lemma TagHitSpec(tags: Option<seq<string>>, wanted: seq<string>)
    ensures TagHit(tags, wanted) <==>
              tags.Some? && exists i, j :: 0 <= i < |wanted| && 0 <= j < |tags.value|
                                        && Contains(Lower(tags.value[j]), Lower(wanted[i]))
  {
    if tags.Some? {
      SomeWantedSpec(tags.value, wanted);
      forall i | 0 <= i < |wanted| {
        SomeTagHasSpec(tags.value, wanted[i]);
      }
    }
  }

  predicate TagsOn(tags: Option<seq<string>>) {
    tags.Some? && |tags.value| > 0
  }

  function TagKeep(tags: Option<seq<string>>): Problem -> bool {
    (p: Problem) => !TagsOn(tags) || TagHit(p.tags, tags.value)
  }

  function ByTags(s: seq<Problem>, tags: Option<seq<string>>): seq<Problem> {
    if TagsOn(tags) then Filter(s, TagKeep(tags)) else s
  }

  function BookmarkKeep(on: bool, ids: seq<int>): Problem -> bool {
    (p: Problem) => !on || p.id in ids
  }

  /** `bookmarkedIds.includes(p.id)` when `bookmarkedOnly` is set. */
  function ByBookmarks(s: seq<Problem>, on: bool, ids: seq<int>): seq<Problem> {
    if on then Filter(s, BookmarkKeep(on, ids)) else s
  }

  /** A stage in force filters by its test; a stage not in force passes
      everything, which is the same as filtering by its test. */
  lemma StagesAreFilters(s: seq<Problem>, d: Option<string>, ds: Option<seq<string>>, term: Option<string>,
                         chef: bool, tags: Option<seq<string>>, on: bool, ids: seq<int>)
    ensures ByDifficulty(s, d) == Filter(s, DifficultyKeep(d))
    ensures ByBand(s, d) == Filter(s, BandKeep(d))
    ensures ByLabels(s, ds) == Filter(s, LabelsKeep(ds))
    ensures BySearch(s, term, chef) == Filter(s, SearchKeep(term, chef))
    ensures ByTags(s, tags) == Filter(s, TagKeep(tags))
    ensures ByBookmarks(s, on, ids) == Filter(s, BookmarkKeep(on, ids))
  {
    DifficultyStagesAreFilters(s, d);
    LabelsStageIsFilter(s, ds);
    SearchStageIsFilter(s, term, chef);
    TagsStageIsFilter(s, tags);
    BookmarksStageIsFilter(s, on, ids);
  }

  lemma DifficultyStagesAreFilters(s: seq<Problem>, d: Option<string>)
    ensures ByDifficulty(s, d) == Filter(s, DifficultyKeep(d))
    ensures ByBand(s, d) == Filter(s, BandKeep(d))
  {
    if !DifficultyOn(d) {
      FilterAll(s, DifficultyKeep(d));
      FilterAll(s, BandKeep(d));
    }
  }

  lemma LabelsStageIsFilter(s: seq<Problem>, ds: Option<seq<string>>)
    ensures ByLabels(s, ds) == Filter(s, LabelsKeep(ds))
  {
    if !LabelsOn(ds) {
      FilterAll(s, LabelsKeep(ds));
    }
  }

  lemma SearchStageIsFilter(s: seq<Problem>, term: Option<string>, chef: bool)
    ensures BySearch(s, term, chef) == Filter(s, SearchKeep(term, chef))
  {
    if !SearchOn(term, chef) {
      FilterAll(s, SearchKeep(term, chef));
    }
  }

  lemma TagsStageIsFilter(s: seq<Problem>, tags: Option<seq<string>>)
    ensures ByTags(s, tags) == Filter(s, TagKeep(tags))
  {
    if !TagsOn(tags) {
      FilterAll(s, TagKeep(tags));
    }
  }

  lemma BookmarksStageIsFilter(s: seq<Problem>, on: bool, ids: seq<int>)
    ensures ByBookmarks(s, on, ids) == Filter(s, BookmarkKeep(on, ids))
  {
    if !on {
      FilterAll(s, BookmarkKeep(on, ids));
    }
  }

  // ------------------------------------------------------ the queries

  /** The filter object of the LeetCode and Codeforces queries.  `status`
      is accepted by the source but never applied, so it is not here. */
  datatype Filters = Filters(
    difficulty: Option<string>, searchTerm: Option<string>, tags: Option<seq<string>>,
    bookmarkedOnly: bool, sortBy: Option<string>, sortOrder: Option<string>)

  /** The filter object of the CodeChef query. */
  datatype ChefFilters = ChefFilters(
    difficulty: Option<seq<string>>, tags: Option<seq<string>>, searchTerm: Option<string>,
    bookmarkedOnly: bool, sortBy: Option<string>, sortOrder: Option<string>)

  /** The four LeetCode stages in the source's order. */
  function LeetcodeFiltered(s: seq<Problem>, f: Filters, ids: seq<int>): seq<Problem> {
    ByBookmarks(ByTags(BySearch(ByDifficulty(s, f.difficulty), f.searchTerm, false), f.tags), f.bookmarkedOnly, ids)
  }

  function CodeforcesFiltered(s: seq<Problem>, f: Filters, ids: seq<int>): seq<Problem> {
    ByBookmarks(ByTags(BySearch(ByBand(s, f.difficulty), f.searchTerm, false), f.tags), f.bookmarkedOnly, ids)
  }

  function CodechefFiltered(s: seq<Problem>, f: ChefFilters, ids: seq<int>): seq<Problem> {
    ByBookmarks(ByTags(BySearch(ByLabels(s, f.difficulty), f.searchTerm, true), f.tags), f.bookmarkedOnly, ids)
  }

  /** Reference definitions: a problem survives a query's filters exactly
      when it passes every test in force. */
  predicate LeetcodePasses(f: Filters, ids: seq<int>, p: Problem) {
    (DifficultyOn(f.difficulty) ==> p.difficulty == f.difficulty.value)
    && (SearchOn(f.searchTerm, false) ==> SearchHit(p, f.searchTerm.value, false))
    && (TagsOn(f.tags) ==> TagHit(p.tags, f.tags.value))
    && (f.bookmarkedOnly ==> p.id in ids)
  }

  predicate CodeforcesPasses(f: Filters, ids: seq<int>, p: Problem) {
    (DifficultyOn(f.difficulty) ==> BandKeeps(f.difficulty.value, p))
    && (SearchOn(f.searchTerm, false) ==> SearchHit(p, f.searchTerm.value, false))
    && (TagsOn(f.tags) ==> TagHit(p.tags, f.tags.value))
    && (f.bookmarkedOnly ==> p.id in ids)
  }

  predicate CodechefPasses(f: ChefFilters, ids: seq<int>, p: Problem) {
    (LabelsOn(f.difficulty) ==> LabelOrUnknown(p) in f.difficulty.value)
    && (SearchOn(f.searchTerm, true) ==> SearchHit(p, f.searchTerm.value, true))
    && (TagsOn(f.tags) ==> TagHit(p.tags, f.tags.value))
    && (f.bookmarkedOnly ==> p.id in ids)
  }

  /** Four filters in a row are one filter by the conjunction of their
      tests. */
  lemma Chain(s: seq<Problem>, k1: Problem -> bool, k2: Problem -> bool, k3: Problem -> bool,
              k4: Problem -> bool, all: Problem -> bool)
    requires forall p :: all(p) == (k1(p) && k2(p) && k3(p) && k4(p))
    ensures Filter(Filter(Filter(Filter(s, k1), k2), k3), k4) == Filter(s, all)
  {
    var k12 := (p: Problem) => k1(p) && k2(p);
    var k123 := (p: Problem) => k1(p) && k2(p) && k3(p);
    FilterFilter(s, k1, k2, k12);
    FilterFilter(s, k12, k3, k123);
    FilterFilter(s, k123, k4, all);
  }

  /** The LeetCode stages only remove problems: together they are one
      filter by the reference test, which keeps the relative order. */
  lemma LeetcodeFilteredSpec(s: seq<Problem>, f: Filters, ids: seq<int>)
    ensures LeetcodeFiltered(s, f, ids) == Filter(s, (p: Problem) => LeetcodePasses(f, ids, p))
  {
    var s1 := ByDifficulty(s, f.difficulty);
    var s2 := BySearch(s1, f.searchTerm, false);
    var s3 := ByTags(s2, f.tags);
    StagesAreFilters(s, f.difficulty, None, None, false, None, false, ids);
    StagesAreFilters(s1, None, None, f.searchTerm, false, None, false, ids);
    StagesAreFilters(s2, None, None, None, false, f.tags, false, ids);
    StagesAreFilters(s3, None, None, None, false, None, f.bookmarkedOnly, ids);
    Chain(s, DifficultyKeep(f.difficulty), SearchKeep(f.searchTerm, false), TagKeep(f.tags),
          BookmarkKeep(f.bookmarkedOnly, ids), (p: Problem) => LeetcodePasses(f, ids, p));
  }

  lemma CodeforcesFilteredSpec(s: seq<Problem>, f: Filters, ids: seq<int>)
    ensures CodeforcesFiltered(s, f, ids) == Filter(s, (p: Problem) => CodeforcesPasses(f, ids, p))
  {
    var s1 := ByBand(s, f.difficulty);
    var s2 := BySearch(s1, f.searchTerm, false);
    var s3 := ByTags(s2, f.tags);
    StagesAreFilters(s, f.difficulty, None, None, false, None, false, ids);
    StagesAreFilters(s1, None, None, f.searchTerm, false, None, false, ids);
    StagesAreFilters(s2, None, None, None, false, f.tags, false, ids);
    StagesAreFilters(s3, None, None, None, false, None, f.bookmarkedOnly, ids);
    Chain(s, BandKeep(f.difficulty), SearchKeep(f.searchTerm, false), TagKeep(f.tags),
          BookmarkKeep(f.bookmarkedOnly, ids), (p: Problem) => CodeforcesPasses(f, ids, p));
  }

  lemma CodechefFilteredSpec(s: seq<Problem>, f: ChefFilters, ids: seq<int>)
    ensures CodechefFiltered(s, f, ids) == Filter(s, (p: Problem) => CodechefPasses(f, ids, p))
  {
    var s1 := ByLabels(s, f.difficulty);
    var s2 := BySearch(s1, f.searchTerm, true);
    var s3 := ByTags(s2, f.tags);
    StagesAreFilters(s, None, f.difficulty, None, false, None, false, ids);
    StagesAreFilters(s1, None, None, f.searchTerm, true, None, false, ids);
    StagesAreFilters(s2, None, None, None, false, f.tags, false, ids);
    StagesAreFilters(s3, None, None, None, false, None, f.bookmarkedOnly, ids);
    Chain(s, LabelsKeep(f.difficulty), SearchKeep(f.searchTerm, true), TagKeep(f.tags),
          BookmarkKeep(f.bookmarkedOnly, ids), (p: Problem) => CodechefPasses(f, ids, p));
  }

  // ------------------------------------------------------ sorting

  /** The difficulty order of each site: LeetCode Easy 1, Medium 2,
      Hard 3; CodeChef Beginner 1 to Challenge 5; an unknown label 0;
      Codeforces sorts by points, a missing or zero rating counting 0. */
  function DifficultyRank(site: Site, p: Problem): int {
    match site
    case LeetCodeSite =>
      if p.difficulty == "Easy" then 1
      else if p.difficulty == "Medium" then 2
      else if p.difficulty == "Hard" then 3
      else 0
    case CodeforcesSite => p.points.GetOr(0)
    case CodeChefSite =>
      if p.difficulty == "Beginner" then 1
      else if p.difficulty == "Easy" then 2
      else if p.difficulty == "Medium" then 3
      else if p.difficulty == "Hard" then 4
      else if p.difficulty == "Challenge" then 5
      else 0
  }

  /** The quantity a sort key compares: the id or the difficulty rank. */
  function Measure(site: Site, sortBy: string, p: Problem): int {
    if sortBy == "id" then p.id else DifficultyRank(site, p)
  }

  /** The comparator `(key(a) - key(b)) * sortOrder` as a key: negated for
      'desc'. */
  function SortKey(site: Site, sortBy: string, descending: bool): Problem -> int {
    (p: Problem) => if descending then -Measure(site, sortBy, p) else Measure(site, sortBy, p)
  }

  /** The optional in-place sort.  A comparator that always returns 0 (an
      unknown key) leaves a stable sort's input as it is. */
  function SortStage(site: Site, s: seq<Problem>, sortBy: Option<string>, sortOrder: Option<string>): seq<Problem> {
    if Given(sortBy) && (sortBy.value == "id" || sortBy.value == "difficulty") then
      SortByKey(s, SortKey(site, sortBy.value, sortOrder == Some("desc")))
    else s
  }

  /** The sort only reorders; sorting by id or difficulty leaves the
      measure ascending, or descending for 'desc'. */
  lemma SortStageSpec(site: Site, s: seq<Problem>, sortBy: Option<string>, sortOrder: Option<string>)
    ensures multiset(SortStage(site, s, sortBy, sortOrder)) == multiset(s)
    ensures Given(sortBy) && (sortBy.value == "id" || sortBy.value == "difficulty") ==>
              var r := SortStage(site, s, sortBy, sortOrder);
              forall i, j :: 0 <= i < j < |r| ==>
                if sortOrder == Some("desc") then Measure(site, sortBy.value, r[i]) >= Measure(site, sortBy.value, r[j])
                else Measure(site, sortBy.value, r[i]) <= Measure(site, sortBy.value, r[j])
  {
    if Given(sortBy) && (sortBy.value == "id" || sortBy.value == "difficulty") {
      SortSorted(s, SortKey(site, sortBy.value, sortOrder == Some("desc")));
    }
  }

  /** The difficulty orders rank the known labels in their natural order
      above every unknown label. */
  lemma DifficultyRankOrder(p: Problem, q: Problem)
    ensures p.difficulty == "Easy" && q.difficulty == "Medium" ==> DifficultyRank(LeetCodeSite, p) < DifficultyRank(LeetCodeSite, q)
    ensures p.difficulty == "Medium" && q.difficulty == "Hard" ==> DifficultyRank(LeetCodeSite, p) < DifficultyRank(LeetCodeSite, q)
    ensures p.difficulty !in ["Easy", "Medium", "Hard"] ==> DifficultyRank(LeetCodeSite, p) == 0
    ensures q.difficulty in ["Easy", "Medium", "Hard"] ==> DifficultyRank(LeetCodeSite, q) > 0
    ensures var chef := ["Beginner", "Easy", "Medium", "Hard", "Challenge"];
            forall i, j :: 0 <= i < j < |chef| && p.difficulty == chef[i] && q.difficulty == chef[j]
              ==> 0 < DifficultyRank(CodeChefSite, p) < DifficultyRank(CodeChefSite, q)
  {
  }

  // ------------------------------------------------------ pagination

  function Max(a: int, b: int): int { if a < b then b else a }

  function Min(a: int, b: int): int { if a < b then a else b }

  /** `Math.ceil(n / d)`. */
  function CeilDiv(n: nat, d: int): nat
    requires d > 0
  {
    (n + d - 1) / d
  }

  lemma CeilDivSpec(n: nat, d: int)
    requires d > 0
    ensures CeilDiv(n, d) * d >= n
    ensures n > 0 ==> (CeilDiv(n, d) - 1) * d < n
    ensures CeilDiv(n, d) == 0 <==> n == 0
  {
    var q := CeilDiv(n, d);
    assert (n + d - 1) == q * d + (n + d - 1) % d;
  }

  /** `Math.max(1, Math.min(page, totalPages || 1))`. */
  function SafePage(page: int, totalPages: nat): int {
    Max(1, Min(page, if totalPages == 0 then 1 else totalPages))
  }

  /** `s.slice(start, end)`: negative bounds count from the end, bounds
      are clamped to the list, and crossed bounds give nothing. */
  function JsSlice<T>(s: seq<T>, start: int, end: int): seq<T> {
    var from := if start < 0 then Max(|s| + start, 0) else Min(start, |s|);
    var to := if end < 0 then Max(|s| + end, 0) else Min(end, |s|);
    if from < to then s[from..to] else []
  }

  datatype Page<T> = Page(problems: seq<T>, totalProblems: int, totalPages: int)

  /** The pagination tail of every query. */
  function Paginate<T>(s: seq<T>, page: int, perPage: int): Page<T>
    requires perPage > 0
  {
    var totalPages := CeilDiv(|s|, perPage);
    var start := (SafePage(page, totalPages) - 1) * perPage;
    Page(JsSlice(s, start, start + perPage), |s|, totalPages)
  }

  /** The page number is clamped into `[1, max(totalPages, 1)]` and kept
      when it is already inside. */
  lemma SafePageSpec(page: int, totalPages: nat)
    ensures 1 <= SafePage(page, totalPages) <= Max(totalPages, 1)
    ensures 1 <= page <= totalPages ==> SafePage(page, totalPages) == page
  {
  }

  /** `totalPages` is the ceiling of the count over the page size; the
      page is the window of at most `perPage` problems starting at
      `(safePage - 1) * perPage`, and it is empty only when nothing
      passed the filters. */
  lemma PaginateSpec<T>(s: seq<T>, page: int, perPage: int)
    requires perPage > 0
    ensures var r := Paginate(s, page, perPage);
            var safe := SafePage(page, r.totalPages);
            var start := (safe - 1) * perPage;
            r.totalProblems == |s|
            && r.totalPages * perPage >= |s| && (|s| > 0 ==> (r.totalPages - 1) * perPage < |s|)
            && 0 <= start && (|s| > 0 ==> start < |s|)
            && r.problems == s[start..Min(start + perPage, |s|)]
            && |r.problems| <= perPage
            && (r.problems == [] <==> s == [])
  {
    var totalPages := CeilDiv(|s|, perPage);
    CeilDivSpec(|s|, perPage);
    SafePageSpec(page, totalPages);
    var safe := SafePage(page, totalPages);
    var start := (safe - 1) * perPage;
    var r := Paginate(s, page, perPage);
    assert r.totalPages == totalPages && r.problems == JsSlice(s, start, start + perPage);
    MulMonotone(0, safe - 1, perPage);
    if |s| > 0 {
      MulMonotone(safe - 1, totalPages - 1, perPage);
      assert start < |s|;
      assert r.problems == s[start..Min(start + perPage, |s|)];
    } else {
      assert safe == 1 && start == 0;
      assert r.problems == [];
    }
  }

  lemma MulMonotone(a: int, b: int, c: int)
    requires a <= b && c > 0
    ensures a * c <= b * c
  {
  }

  /** The LeetCode query's pipeline for a given list of bookmarked ids:
      fetch, the four filter stages, the sort and the page. */
  function LeetcodePageOf(file: Option<Response>, now: string, page: int, perPage: int, f: Filters,
                          ids: seq<int>): Page<Problem>
    requires perPage > 0
  {
    var problems := FetchLeetcode(file, now).problems;
    Paginate(SortStage(LeetCodeSite, LeetcodeFiltered(problems, f, ids), f.sortBy, f.sortOrder), page, perPage)
  }

  function CodeforcesPageOf(file: Option<Response>, now: string, page: int, perPage: int, f: Filters,
                            ids: seq<int>): Page<Problem>
    requires perPage > 0
  {
    var problems := FetchCodeforces(file, now).problems;
    Paginate(SortStage(CodeforcesSite, CodeforcesFiltered(problems, f, ids), f.sortBy, f.sortOrder), page, perPage)
  }

  function CodechefPageOf(file: Option<Response>, now: string, page: int, perPage: int, f: ChefFilters,
                          ids: seq<int>): Page<Problem>
    requires perPage > 0
  {
    var problems := FetchCodechef(file, now).problems;
    Paginate(SortStage(CodeChefSite, CodechefFiltered(problems, f, ids), f.sortBy, f.sortOrder), page, perPage)
  }

  /** `getPaginatedLeetcodeProblems` as written (the file and the stored
      user data are parameters): bookmarks are looked up under 'LeetCode'. */
  function LeetcodePage(file: Option<Response>, now: string, page: int, perPage: int, f: Filters,
                        stored: Option<Store>): Page<Problem>
    requires perPage > 0
  {
    LeetcodePageOf(file, now, page, perPage, f, AsWrittenBookmarks(LeetCodeSite, stored))
  }

  /** `getPaginatedCodeforcesProblems` as written: the lookup is under
      'Codeforces'. */
  function CodeforcesPage(file: Option<Response>, now: string, page: int, perPage: int, f: Filters,
                          stored: Option<Store>): Page<Problem>
    requires perPage > 0
  {
    CodeforcesPageOf(file, now, page, perPage, f, AsWrittenBookmarks(CodeforcesSite, stored))
  }

  /** `getPaginatedCodechefProblems` as written: the lookup is under
      'CodeChef'. */
  function CodechefPage(file: Option<Response>, now: string, page: int, perPage: int, f: ChefFilters,
                        stored: Option<Store>): Page<Problem>
    requires perPage > 0
  {
    CodechefPageOf(file, now, page, perPage, f, AsWrittenBookmarks(CodeChefSite, stored))
  }

  /** The three queries with the corrected lookup, under the source the
      problems carry. */
  function FixedLeetcodePage(file: Option<Response>, now: string, page: int, perPage: int, f: Filters,
                             stored: Option<Store>): Page<Problem>
    requires perPage > 0
  {
    LeetcodePageOf(file, now, page, perPage, f, SiteBookmarks(LeetCodeSite, stored))
  }

  function FixedCodeforcesPage(file: Option<Response>, now: string, page: int, perPage: int, f: Filters,
                               stored: Option<Store>): Page<Problem>
    requires perPage > 0
  {
    CodeforcesPageOf(file, now, page, perPage, f, SiteBookmarks(CodeforcesSite, stored))
  }

  function FixedCodechefPage(file: Option<Response>, now: string, page: int, perPage: int, f: ChefFilters,
                             stored: Option<Store>): Page<Problem>
    requires perPage > 0
  {
    CodechefPageOf(file, now, page, perPage, f, SiteBookmarks(CodeChefSite, stored))
  }

  /** A LeetCode page, whatever the bookmark lookup returned, counts
      exactly the fetched problems that pass every filter in force, lists
      only such problems, at most `perPage` of them, and is empty exactly
      when none passes. */
  lemma LeetcodePageSpec(file: Option<Response>, now: string, page: int, perPage: int, f: Filters,
                         ids: seq<int>, p: Problem)
    requires perPage > 0
    ensures var r := LeetcodePageOf(file, now, page, perPage, f, ids);
            var problems := FetchLeetcode(file, now).problems;
            var filtered := Filter(problems, (q: Problem) => LeetcodePasses(f, ids, q));
            r.totalProblems == |filtered|
            && |r.problems| <= perPage
            && (r.problems == [] <==> filtered == [])
            && (p in r.problems ==> p in problems && LeetcodePasses(f, ids, p))
  {
    var problems := FetchLeetcode(file, now).problems;
    var filtered := LeetcodeFiltered(problems, f, ids);
    LeetcodeFilteredSpec(problems, f, ids);
    FilterSpec(problems, (q: Problem) => LeetcodePasses(f, ids, q));
    SortStageSpec(LeetCodeSite, filtered, f.sortBy, f.sortOrder);
    PageOfPermutation(SortStage(LeetCodeSite, filtered, f.sortBy, f.sortOrder), filtered, page, perPage, p);
  }

  /** The same for Codeforces, where the difficulty test is the range
      test. */
  lemma CodeforcesPageSpec(file: Option<Response>, now: string, page: int, perPage: int, f: Filters,
                           ids: seq<int>, p: Problem)
    requires perPage > 0
    ensures var r := CodeforcesPageOf(file, now, page, perPage, f, ids);
            var problems := FetchCodeforces(file, now).problems;
            var filtered := Filter(problems, (q: Problem) => CodeforcesPasses(f, ids, q));
            r.totalProblems == |filtered|
            && |r.problems| <= perPage
            && (r.problems == [] <==> filtered == [])
            && (p in r.problems ==> p in problems && CodeforcesPasses(f, ids, p))
  {
    var problems := FetchCodeforces(file, now).problems;
    var filtered := CodeforcesFiltered(problems, f, ids);
    CodeforcesFilteredSpec(problems, f, ids);
    FilterSpec(problems, (q: Problem) => CodeforcesPasses(f, ids, q));
    SortStageSpec(CodeforcesSite, filtered, f.sortBy, f.sortOrder);
    PageOfPermutation(SortStage(CodeforcesSite, filtered, f.sortBy, f.sortOrder), filtered, page, perPage, p);
  }

  /** The same for CodeChef. */
  lemma CodechefPageSpec(file: Option<Response>, now: string, page: int, perPage: int, f: ChefFilters,
                         ids: seq<int>, p: Problem)
    requires perPage > 0
    ensures var r := CodechefPageOf(file, now, page, perPage, f, ids);
            var problems := FetchCodechef(file, now).problems;
            var filtered := Filter(problems, (q: Problem) => CodechefPasses(f, ids, q));
            r.totalProblems == |filtered|
            && |r.problems| <= perPage
            && (r.problems == [] <==> filtered == [])
            && (p in r.problems ==> p in problems && CodechefPasses(f, ids, p))
  {
    var problems := FetchCodechef(file, now).problems;
    var filtered := CodechefFiltered(problems, f, ids);
    CodechefFilteredSpec(problems, f, ids);
    FilterSpec(problems, (q: Problem) => CodechefPasses(f, ids, q));
    SortStageSpec(CodeChefSite, filtered, f.sortBy, f.sortOrder);
    PageOfPermutation(SortStage(CodeChefSite, filtered, f.sortBy, f.sortOrder), filtered, page, perPage, p);
  }

  /** Paginating a permutation of `filtered`: the count is that of
      `filtered`, the page holds at most `perPage` of its items and is
      empty only when `filtered` is. */
  lemma PageOfPermutation<T>(sorted: seq<T>, filtered: seq<T>, page: int, perPage: int, p: T)
    requires perPage > 0 && multiset(sorted) == multiset(filtered)
    ensures var r := Paginate(sorted, page, perPage);
            r.totalProblems == |filtered|
            && |r.problems| <= perPage
            && (r.problems == [] <==> filtered == [])
            && (p in r.problems ==> p in filtered)
  {
    PaginateSpec(sorted, page, perPage);
    assert |sorted| == |multiset(sorted)| == |filtered|;
    if p in Paginate(sorted, page, perPage).problems {
      assert p in multiset(sorted);
    }
  }

  /** The lookup as written returns no ids for any store the client
      writes, or for no store at all. */
  lemma AsWrittenNoIds(site: Site, stored: Option<Store>)
    requires stored.Some? ==> LowerCaseKeys(stored.value)
    ensures AsWrittenBookmarks(site, stored) == []
  {
    if stored.Some? {
      AsWrittenBookmarksEmpty(site, stored.value);
    }
  }

  /** As written, "bookmarked only" empties every query: with the client's
      keys the lookup finds no id, so no problem passes. */
  lemma AsWrittenBookmarkedOnlyEmpty(file: Option<Response>, now: string, page: int, perPage: int,
                                     f: Filters, g: ChefFilters, stored: Option<Store>)
    requires perPage > 0 && f.bookmarkedOnly && g.bookmarkedOnly
    requires stored.Some? ==> LowerCaseKeys(stored.value)
    ensures var r := LeetcodePage(file, now, page, perPage, f, stored);
            r.problems == [] && r.totalProblems == 0
    ensures var r := CodeforcesPage(file, now, page, perPage, f, stored);
            r.problems == [] && r.totalProblems == 0
    ensures var r := CodechefPage(file, now, page, perPage, g, stored);
            r.problems == [] && r.totalProblems == 0
  {
    AsWrittenNoIds(LeetCodeSite, stored);
    AsWrittenNoIds(CodeforcesSite, stored);
    AsWrittenNoIds(CodeChefSite, stored);
    var p: Problem :| true;
    LeetcodePageSpec(file, now, page, perPage, f, [], p);
    CodeforcesPageSpec(file, now, page, perPage, f, [], p);
    CodechefPageSpec(file, now, page, perPage, g, [], p);
    FilterNone(FetchLeetcode(file, now).problems, (q: Problem) => LeetcodePasses(f, [], q));
    FilterNone(FetchCodeforces(file, now).problems, (q: Problem) => CodeforcesPasses(f, [], q));
    FilterNone(FetchCodechef(file, now).problems, (q: Problem) => CodechefPasses(g, [], q));
  }
}
