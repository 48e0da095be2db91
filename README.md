# DSA Search Engine: a verified model of its core

DSA Search Engine is a catalogue of competitive-programming problems plus a
set of algorithm visualisers. This project models in Dafny the parts of it
that carry logic:

- **The three scrapers.** The Codeforces, LeetCode and CodeChef scrapers
  turn each site's API reply into the problem files the site serves.
- **The client services.** This covers:
  - the fetch, filter, sort and paginate queries over those files;
  - the per-problem user data (bookmark and status) kept in browser storage;
  - the catalogue page's own filtering, topic ordering and paging;
  - the activity tracker (solved totals, weekly activity, streak and the
    combined local/remote problem status);
  - the algorithm-page utilities (grouping, colours, complexity table, key
    points, complexity ordering).
- **Four visualisers.**
  - The KMP visualiser: prefix function, search and submit guard.
  - The hash-table visualiser: separate chaining over seven slots.
  - The heap sort and merge sort visualisers: the array algorithms together
    with the animation events they record.

Each source file is one module.

- Pure code is written as functions with lemmas.
- Code that works step by step is written as methods with loops and their
  invariants:
  - the scraper loops;
  - the LPS and search loops;
  - the hash loop;
  - heapify and the two heap-sort phases;
  - the three merge loops;
  - the storage service.
- State the source updates in place is kept as state:
  - the hash table is a class over an array of slots;
  - the activity log is a class whose field the methods reassign;
  - the sort visualisers work in place on an `array<int>`.

Shared modules:

- `Wrappers` holds `Option`.
- `JsonValue` models parsed JSON and the Python operations the scrapers use:
  `dict.get`, `or` chains, `int()`, `str()`/`repr()` and iteration.
- `Text` models ASCII case mapping, Python's `strip` and JavaScript's `trim`
  (each with its own whitespace set), `in`/`includes`, decimal rendering,
  `parseInt` and `split`.
- `Sorting` is a stable sort by an integer key. It models Python's
  `list.sort(key=...)` and JavaScript's `Array.prototype.sort`.
- `Numbering` is filter and number-as-you-go.
- `Catalogue` is the client's problem record.

Input and output are parameters and results:

- the network replies;
- the files read and written;
- browser storage;
- the clock, passed in as a timestamp or a day number;
- regular-expression captures.

## Model

| member | source | states |
|---|---|---|
| Codeforces.Band | backend/codeforces_scraper.py:11-24 | every integer rating gets one of the seven band labels |
| Codeforces.GetDifficulty | backend/codeforces_scraper.py:6-26 | None gives Mid-Level; an integer rating gives its band; the result is always a band label |
| Codeforces.GetDifficultySpec | backend/codeforces_scraper.py:9-26 | a value int() rejects gives Mid-Level; a value int() accepts (an integer, a boolean, a string holding a signed decimal) gives the band of that integer |
| Codeforces.BandIsThresholdTable | backend/codeforces_scraper.py:11-24 | the if-chain equals the threshold table 1000/1300/1600/1900/2200/2500, each threshold belonging to the lower band |
| Codeforces.BandMonotone | backend/codeforces_scraper.py:11-24 | a higher rating never gets an easier label |
| Codeforces.BandRanges | backend/codeforces_scraper.py:11-24 | a rating gets label k exactly when it lies in the k-th rating range |
| Codeforces.LabelsDistinct | backend/codeforces_scraper.py:11-24 | the seven labels are pairwise distinct |
| Codeforces.MakeRecordSpec | backend/codeforces_scraper.py:50-71 | URL and slug are built from contest id and index; difficulty is the band of the rating; title/rating None when absent; tags default to []; solved count defaults to 0; present values are copied; the source is "codeforces" |
| Codeforces.Zip | backend/codeforces_scraper.py:48 | zip stops at the shorter list and pairs equal positions |
| Codeforces.BuiltSpec | backend/codeforces_scraper.py:45-76 | the records are the dict pairs of the zip in order, numbered 1, 2, 3, ...; there are never more of them than the shorter list has |
| Codeforces.BuiltFromDicts | backend/codeforces_scraper.py:48-76 | every record is built from one position at which both sides are dicts |
| Codeforces.BuildRecords | backend/codeforces_scraper.py:45-76 | the loop with its id counter and skipped pairs produces exactly the specified records |
| Codeforces.ScrapeCodeforcesProblems | backend/codeforces_scraper.py:28-98 | the whole run yields the file the specification function describes, or nothing |
| Codeforces.ScrapeSpec | backend/codeforces_scraper.py:32-91 | a file is written only after a successful fetch with status OK; it counts its records and holds exactly the built records |
| Leetcode.PyIndex | backend/leetcode_scraper.py:33 | Python indexing: defined exactly for -len <= i < len; a non-negative index is plain indexing |
| Leetcode.LevelLabelSpec | backend/leetcode_scraper.py:33 | levels 1, 2, 3 give Easy, Medium, Hard; 0, -1 and -2 wrap to Hard, Medium, Easy; any other level raises |
| Leetcode.ExtractSpec | backend/leetcode_scraper.py:21-49 | a kept record copies id, title and slug from stat; its URL is built from the slug; its difficulty is the label of difficulty.level; the acceptance is 0 without submissions and otherwise the two counts; present tags are copied and missing tags give []; the source is "leetcode" |
| Leetcode.ExtractSkip | backend/leetcode_scraper.py:22-27 | an entry is skipped if and only if one of the looked-up keys is missing (a KeyError), in the order of the lookups |
| Leetcode.OutOfRangeLevelStops | backend/leetcode_scraper.py:33 | a level outside -2..3 raises IndexError, which the except KeyError does not catch: the script stops |
| Leetcode.MissingKeySkipped | backend/leetcode_scraper.py:51-53 | an entry missing a looked-up key (no stat, no question_id, ...) is skipped and the entries after it are still processed |
| Leetcode.CollectedSpec | backend/leetcode_scraper.py:20-53 | the loop finishes exactly when no entry raises anything but KeyError; then the records are exactly the records the entries keep, in input order |
| Leetcode.CollectProblems | backend/leetcode_scraper.py:18-53 | the loop computes the collected records |
| Leetcode.ScrapeLeetcode | backend/leetcode_scraper.py:6-81 | the whole run yields the file the specification function describes, or nothing |
| Leetcode.ScrapeSpec | backend/leetcode_scraper.py:55-72 | a written file is non-empty, counts its records, and holds the collected records sorted by id as a permutation |
| Codechef.TagsFromName | backend/codechef_scraper.py:130-155 | at least one tag |
| Codechef.MatchedTagsSpec | backend/codechef_scraper.py:135-150 | a tag is produced exactly when a group carrying it has a keyword in the name; with distinct group tags, no tag repeats |
| Codechef.TagGroupsDistinct | backend/codechef_scraper.py:135-153 | the eight group tags are distinct and none is "implementation" |
| Codechef.TagsFromNameSpec | backend/codechef_scraper.py:130-155 | at most eight tags and no repeats; a group's tag is present iff one of its keywords is in the lower-cased name; the result is ["implementation"] iff no group matches |
| Codechef.FirstPresent | backend/codechef_scraper.py:41-44 | None iff no list key is present |
| Codechef.FirstPresentSpec | backend/codechef_scraper.py:41-44 | the value under the first key, in list order, that the dict holds |
| Codechef.KeyedEntries | backend/codechef_scraper.py:49-54 | at most one entry per dict entry |
| Codechef.ScanEntries | backend/codechef_scraper.py:47-54 | the walk that writes each key in as `code` yields exactly the problem-shaped entries |
| Codechef.LocateProblemList | backend/codechef_scraper.py:38-56 | the walk finds the problem list the specification function describes |
| Codechef.ListPayloadAsIs | backend/codechef_scraper.py:55-56 | a list payload is used as it is |
| Codechef.FirstListKeyWins | backend/codechef_scraper.py:41-47 | a non-empty list under the first list key present is the problem list, whatever else the payload holds |
| Codechef.KeyedFallback | backend/codechef_scraper.py:47-54 | a non-empty dict without list keys yields its problem-shaped entries, each carrying its key as code |
| Codechef.CandidateSpec | backend/codechef_scraper.py:63-83 | an accepted entry is a dict with a truthy code and name; the code has no lower-case letter; the name has >= 3 characters, no surrounding whitespace, and differs from the code ignoring case |
| Codechef.CandidateOfStrings | backend/codechef_scraper.py:76-83 | string code and name are accepted iff the stripped name has >= 3 characters and differs from the stripped code ignoring case; then they are (upper(strip code), strip name) |
| Codechef.MakeProblem | backend/codechef_scraper.py:85-95 | the record carries the id, code, title and label given, the problem-page URL, the tags of the name, acceptance 60 + id % 40 (in 60..99), submissions 10000 + 1000 id and source codechef |
| Codechef.GetFallbackProblems | backend/codechef_scraper.py:157-286 | the loop builds the fallback list |
| Codechef.FallbackShape | backend/codechef_scraper.py:272-284 | fallback record i has id i+1, the i-th code, difficulty cycling Beginner/Easy/Medium/Hard, the problem-page URL, and acceptance in [60, 99] |
| Codechef.CollectLive | backend/codechef_scraper.py:29-112 | the endpoint loop computes the live records, the id counter running on across endpoints |
| Codechef.CollectEndpoint | backend/codechef_scraper.py:60-101 | the entry loop over one payload appends each accepted entry with the next id and stops once the label holds 50 records |
| Codechef.MergeFallback | backend/codechef_scraper.py:114-125 | below 50 live records the fallback list is built and its new-code records merged in; otherwise the live records are returned as they are |
| Codechef.AddFallback | backend/codechef_scraper.py:119-125 | the merge appends the fallback records whose code is not live, continuing the ids |
| Codechef.CollectFromCounts | backend/codechef_scraper.py:99-101 | walking an endpoint adds only records with its label and never takes that label past 50 |
| Codechef.EndpointLabelsDistinct | backend/codechef_scraper.py:18-23 | the four endpoint labels are distinct |
| Codechef.LiveSpec | backend/codechef_scraper.py:29-112 | live ids count from 1 in acceptance order; URL, acceptance rate (60..99) and submissions follow from code and id; no label holds more than 50 records |
| Codechef.LiveIds | backend/codechef_scraper.py:87-98 | live ids are 1, 2, 3, ... |
| Codechef.NewCodesSpec | backend/codechef_scraper.py:120-122 | the merge keeps exactly the fallback records whose code is not live |
| Codechef.AppendedIsRenumberedFilter | backend/codechef_scraper.py:119-125 | the merge loop appends the new-code fallback records in order, renumbered from the next id |
| Codechef.MergeIds | backend/codechef_scraper.py:119-125 | appending after live ids 1..n continues the numbering |
| Codechef.MergeAppended | backend/codechef_scraper.py:119-125 | each appended record is a fallback record with a code that is not live, carrying its new id |
| Codechef.FetchCodechefProblems | backend/codechef_scraper.py:8-128 | the whole fetch computes the specification function |
| Codechef.FetchSpec | backend/codechef_scraper.py:114-126 | with 50 or more live records nothing is added; otherwise the new-code fallback records follow in order, numbered on |
| Codechef.FetchIds | backend/codechef_scraper.py:14-125 | fetched ids are 1, 2, 3, ... across live and fallback records |
| Codechef.FetchFallbackRecords | backend/codechef_scraper.py:115-125 | each record past the live ones is a table entry with a non-live code and all its other fields as built from its table position |
| Codechef.SaveToJson | backend/codechef_scraper.py:288-300 | the metadata counts the saved records, and they are as many as were given |
| Codechef.SaveToJsonSpec | backend/codechef_scraper.py:290 | the saved list is sorted by id and a permutation of the input; records already in id order keep their order |
| Codechef.Run | backend/codechef_scraper.py:310-313 | a file is written iff the fetch returned records, and then it is the saved form of them |
| ProblemsApi.FetchLeetcodeSpec | src/services/problemsApi.ts:15-47 | a failed fetch gives the empty response; otherwise the file's problems one for one, each tagged leetcode, with the metadata kept |
| ProblemsApi.FetchCodeforcesSpec | src/services/problemsApi.ts:52-91 | every returned problem has tags, comes from the file and is tagged codeforces; every file problem with tags is returned; the metadata counts what is returned |
| ProblemsApi.GetBookmarkedProblems | src/services/problemsApi.ts:131-151 | the loop over the stored entries collects the specified ids |
| ProblemsApi.BookmarkedIdsSpec | src/services/problemsApi.ts:139-143 | an id is collected iff some stored entry under `source-` is bookmarked and its key parses to that id |
| ProblemsApi.KeyIdOfCompositeId | src/services/problemsApi.ts:141-142 | parseInt of the piece after the dash gives back the id of a composite key |
| ProblemsApi.BookmarkFound | src/services/problemsApi.ts:131-151 | a problem bookmarked under a source is found by the lookup for that source |
| ProblemsApi.AsWrittenBookmarksEmpty | src/services/problemsApi.ts:202-206 | as written, the lookup under a display name finds nothing among the keys the client writes |
| ProblemsApi.AsWrittenMissesBookmark | src/services/problemsApi.ts:204 | LeetCode problem 1 bookmarked by the hook: found under 'leetcode', missed under 'LeetCode' |
| ProblemsApi.SiteBookmarksFound | src/services/problemsApi.ts:131-151 | under the problems' own source, every bookmarked problem is found |
| ProblemsApi.BandFilterAgrees | src/services/problemsApi.ts:269-296 | for a rated problem, the range filter keeps it under a label exactly when the scraper's bands give that label |
| ProblemsApi.TagHitSpec | src/services/problemsApi.ts:189-200 | a problem passes the tag filter iff one of its tags contains a wanted tag ignoring case; untagged problems never pass |
| ProblemsApi.StagesAreFilters | src/services/problemsApi.ts:175-206 | each stage (difficulty, band, labels, search, tags, bookmarks) is a filter by its test, and a stage not in force passes everything |
| ProblemsApi.LeetcodeFilteredSpec | src/services/problemsApi.ts:175-206 | the four LeetCode stages together are one order-preserving filter by the conjunction of the tests in force |
| ProblemsApi.CodeforcesFilteredSpec | src/services/problemsApi.ts:269-325 | the same for Codeforces, with the rating-range difficulty test |
| ProblemsApi.CodechefFilteredSpec | src/services/problemsApi.ts:384-417 | the same for CodeChef, with label membership and the trimmed search |
| ProblemsApi.SortStageSpec | src/services/problemsApi.ts:209-228 | sorting only reorders; by id or difficulty the measure ends ascending, or descending for 'desc' |
| ProblemsApi.DifficultyRankOrder | src/services/problemsApi.ts:218-223 | LeetCode Easy < Medium < Hard; CodeChef Beginner < ... < Challenge; unknown labels rank 0 |
| ProblemsApi.CeilDivSpec | src/services/problemsApi.ts:232 | Math.ceil of count over page size: the least page count covering all items |
| ProblemsApi.SafePageSpec | src/services/problemsApi.ts:233 | the page is clamped into [1, max(totalPages, 1)] and kept when already in range |
| ProblemsApi.PaginateSpec | src/services/problemsApi.ts:231-238 | totalPages is the ceiling; the page is the slice of at most perPage items from (safePage-1)*perPage; it is empty only when nothing passed |
| ProblemsApi.LeetcodePageSpec | src/services/problemsApi.ts:156-245 | for whatever ids the bookmark lookup returned, a page counts exactly the problems passing every filter in force, lists at most perPage of them, each passing, and is empty iff none passes |
| ProblemsApi.CodeforcesPageSpec | src/services/problemsApi.ts:250-363 | the same for the Codeforces query |
| ProblemsApi.CodechefPageSpec | src/services/problemsApi.ts:368-456 | the same for the CodeChef query |
| ProblemsApi.AsWrittenBookmarkedOnlyEmpty | src/services/problemsApi.ts:202-206 | as written, with bookmarkedOnly set, each of the three queries returns an empty page counting 0 problems for any store the client writes |
| ProblemUserData.CompositeIdInjective | src/hooks/useProblemUserData.ts:13-15 | for dash-free sources, the composite id determines source and id |
| ProblemUserData.PutSpec | src/hooks/useProblemUserData.ts:41-68 | after the spread update the key reads as the new entry and every other key as before |
| ProblemUserData.PutDistinct | src/hooks/useProblemUserData.ts:41-68 | the update keeps the object's keys distinct |
| ProblemUserData.AbsentReadsFresh | src/hooks/useProblemUserData.ts:71-80 | an untouched key reads as Not Attempted and not bookmarked |
| ProblemUserData.ToggleBookmarkSpec | src/hooks/useProblemUserData.ts:41-53 | toggling flips that key's bookmark, keeps its status (the default for a new key), and leaves every other key alone |
| ProblemUserData.ToggleTwice | src/hooks/useProblemUserData.ts:41-53 | toggling twice restores the bookmark and the status read |
| ProblemUserData.UpdateStatusSpec | src/hooks/useProblemUserData.ts:56-68 | the key now reads as the new status with its bookmark kept; other keys are unchanged |
| ProblemUserData.WithUserData | src/hooks/useProblemUserData.ts:83-90 | one annotated entry per problem, in order, carrying that problem |
| ProblemUserData.ToggleShows | src/hooks/useProblemUserData.ts:41-90 | toggling a listed problem under its own source flips its shown flag and only that of problems with the same id and source |
| PlatformPage.CodeforcesDifficultySpec | src/pages/PlatformPage.tsx:43-55 | a rated problem is labelled as the scraper's bands label it, and the query's range filter agrees with the label shown |
| PlatformPage.NextStatusSpec | src/pages/PlatformPage.tsx:120-140 | every status moves to a different status; unknown goes to Attempted; three steps return to the start |
| PlatformPage.ToggleProblemStatusSpec | src/pages/PlatformPage.tsx:120-140 | on the LeetCode page the problem reads as the next status, bookmark kept, other keys unchanged; elsewhere nothing changes |
| PlatformPage.ThreeClicks | src/pages/PlatformPage.tsx:120-140 | three clicks on a LeetCode problem's status bring it back |
| PlatformPage.AsWrittenClickNotShown | src/pages/PlatformPage.tsx:1067 | as written, the bookmark button of a problem carrying a source leaves what the list shows for it unchanged |
| PlatformPage.BookmarkClickSpec | src/pages/PlatformPage.tsx:1067 | toggling under the problem's own source flips the shown flag, and a second click restores it |
| PlatformPage.ClientFilteredSpec | src/pages/PlatformPage.tsx:65-78 | an entry survives iff it has the selected status (any for All) and, if asked, is bookmarked; with neither filter the list is unchanged |
| PlatformPage.ClientWindowSpec | src/pages/PlatformPage.tsx:81-110 | the page is clamped into range; the window is at most 30 items from its start, empty only for an empty list |
| PlatformPage.PaginationInfoSpec | src/pages/PlatformPage.tsx:81-110 | without client filters the server page is shown as is; otherwise at most 30 passing items, counting all that pass |
| PlatformPage.HandlePageChangeSpec | src/pages/PlatformPage.tsx:595-598 | the new page is at least 1 and at most the page count when there is one; an in-range page is taken |
| PlatformPage.HandleTopicChangeSpec | src/pages/PlatformPage.tsx:613-626 | '' is ignored; a new topic is appended once; the old selection is a prefix; no duplicates are introduced |
| PlatformPage.RemoveTopicSpec | src/pages/PlatformPage.tsx:629-634 | the topic is gone, all others are kept, and removing an absent topic changes nothing |
| PlatformPage.WithSampleTagsSpec | src/pages/PlatformPage.tsx:238-262 | tagged problems are kept; others get the sample entry of their position, so every problem ends up tagged |
| PlatformPage.SortPartitions | src/pages/PlatformPage.tsx:291-295 | the stable sort with that comparator is the stable partition: passing entries first, then the rest, each in order |
| PlatformPage.AllIsAny | src/pages/PlatformPage.tsx:278-287 | a problem matching every topic matches some topic |
| PlatformPage.TopicFilteredSpec | src/pages/PlatformPage.tsx:264-295 | the topic filter keeps exactly the problems matching some topic, permuted only: ids matching all topics first, each part in order |
| Activity.Pad2Digits | src/services/activityTrackingService.ts:173-179 | padStart(2,'0') of 0..99 is its two decimal digits |
| Activity.FormatDateSpec | src/services/activityTrackingService.ts:173-179 | the key is the year then -MM-DD; distinct valid dates get distinct keys |
| Activity.WeekSpec | src/services/activityTrackingService.ts:90-117 | slot 6-i of the week is the count of i days ago; a missing or unreadable log gives seven zeros |
| Activity.LoggedSpec | src/services/activityTrackingService.ts:185-196 | logging adds the count to today's entry only, and shows in the week's last slot only |
| Activity.RunSpec | src/services/activityTrackingService.ts:148-159 | the run ending on a day covers exactly that many active days and stops at an inactive one |
| Activity.RunFrame | src/services/activityTrackingService.ts:148-159 | a run only depends on days up to where it ends |
| Activity.AsWrittenIsRunFromToday | src/services/activityTrackingService.ts:123-166 | as written, the streak is the run from today, so the yesterday check is dead |
| Activity.AsWrittenDropsYesterday | src/services/activityTrackingService.ts:123-166 | activity only yesterday gives 0 as written and 1 corrected |
| Activity.StreakSpec | src/services/activityTrackingService.ts:123-166 | the corrected streak is a maximal run ending today or, when today is inactive, yesterday; it is positive iff one of them is active |
| Activity.LoggingExtendsStreak | src/services/activityTrackingService.ts:185-196 | logging a positive count today extends yesterday's run by one |
| Activity.ActivityStorage.LogActivity | src/services/activityTrackingService.ts:185-196 | the stored log becomes the logged state |
| Activity.ActivityStorage.GetWeekActivity | src/services/activityTrackingService.ts:90-117 | the seven-day loop returns the week of the stored log |
| Activity.ActivityStorage.CalculateStreak | src/services/activityTrackingService.ts:123-166 | the counting loop returns the as-written streak |
| Activity.CountSolvedPut | src/services/activityTrackingService.ts:44-56 | writing an entry changes the solved count by what it replaces and what it writes |
| Activity.SolvingCountsOnce | src/services/activityTrackingService.ts:44-56 | marking an unsolved problem solved adds exactly one to the platform count |
| Activity.SolvedStatsSpec | src/services/activityTrackingService.ts:33-85 | the total is the sum of the three counts; a failed fetch counts 0; the platform count is at most the stored entries; the week is the seven-day view of the log; the streak is calculateStreak as written, the run counted from today |
| Activity.CountMatches | src/services/activityTrackingService.ts:318-321 | the counting loop computes the match count |
| Activity.MatchCountSpec | src/services/activityTrackingService.ts:318-330 | the count is at most the word count, and equals it iff every word occurs in the solved title |
| Activity.FuzzyTitleSpec | src/services/activityTrackingService.ts:295-334 | a title of two or more long words matches itself; one with fewer never matches |
| Activity.MatchedSeparator | src/services/activityTrackingService.ts:467 | the separator `/^.*?[-:]\s*(.*?)$/` settles on: the first '-' or ':' with no line terminator before it and none after the whitespace that follows it; none when no separator qualifies |
| Activity.NamePartTrailingNewline | src/services/activityTrackingService.ts:467-468 | a line terminator after the name stops the match, so "1-ABCDEFG\n" yields the whole trimmed title |
| Activity.NamePartAfterLineBreak | src/services/activityTrackingService.ts:467-468 | a line terminator inside the whitespace after a separator is consumed by `\s*`, so "a-b-\nc" matches at its second '-' and yields "c" |
| Activity.CombinedStatusSpec | src/services/activityTrackingService.ts:209-489 | always one of the three statuses; stored progress wins; no external data gives Not Attempted; never Attempted without stored progress; on the LeetCode branch, Solved iff one of the six matches holds |
| Activity.DirectIdMatch | src/services/activityTrackingService.ts:240-244 | a problem whose id the site's statistics list is Solved when nothing is stored |
| AlgorithmUtils.AddToSpec | src/utils/algorithmUtils.ts:13-19 | one reduce step appends the item to its key's group and leaves other groups alone |
| AlgorithmUtils.GroupByCategorySpec | src/utils/algorithmUtils.ts:12-21 | each category's group is exactly its items in original order; an absent category has no group |
| AlgorithmUtils.GroupByCategoryWellFormed | src/utils/algorithmUtils.ts:12-21 | keys are distinct and no group is empty |
| AlgorithmUtils.ExactlyOneGroup | src/utils/algorithmUtils.ts:12-21 | an item is in a group iff it is an input item of that group's category |
| AlgorithmUtils.CategoryColorSpec | src/utils/algorithmUtils.ts:26-43 | the colour ignores case and is gray iff the category is not one of the six known ones |
| AlgorithmUtils.TimeComplexityDetailsSpec | src/utils/algorithmUtils.ts:144-179 | a table id gets its row, any other id the dashes, and no row is the dashes |
| AlgorithmUtils.TrimmedPieces | src/utils/algorithmUtils.ts:197-198 | one trimmed piece per piece of the split |
| AlgorithmUtils.KeyPointsSpec | src/utils/algorithmUtils.ts:194-201 | each key point is a trimmed sentence longer than 20 plus its one period; every such sentence yields one; no more points than pieces |
| AlgorithmUtils.RankSpec | src/utils/algorithmUtils.ts:218-225 | 99 iff no class occurs; otherwise the value of the first class in table order that occurs |
| AlgorithmUtils.MainComplexityOfKeys | src/utils/algorithmUtils.ts:218-225 | each class in the table ranks as its own value; the order never hides a class |
| AlgorithmUtils.CompareAlgorithmsSpec | src/utils/algorithmUtils.ts:206-228 | ranks lie in 1..7 or 99; comparing with itself gives 0; antisymmetric; negative iff the first ranks lower |
| Kmp.ComputeLps | src/components/animations/KMPAnimation.tsx:339-356 | the loop yields the prefix function: every entry is the longest proper border |
| Kmp.LpsBounds | src/components/animations/KMPAnimation.tsx:339-356 | lps[0] = 0 and 0 <= lps[i] <= i |
| Kmp.LpsUnique | src/components/animations/KMPAnimation.tsx:339-356 | the prefix function is determined by the pattern, so both copies of the loop agree |
| Kmp.KmpSearch | src/components/animations/KMPAnimation.tsx:166-278 | the recorded positions are exactly the occurrences, ascending, with at most 2·|text| comparisons |
| Kmp.ShownLps | src/components/animations/KMPAnimation.tsx:73-163 | the display loop announces one value per position, starting with 0 |
| Kmp.ComputeLpsSteps | src/components/animations/KMPAnimation.tsx:73-163 | as written, the announced values are ShownLps and the array shown at the end is all zeros |
| Kmp.ShownLpsIsWrong | src/components/animations/KMPAnimation.tsx:73-163 | for "AABAAA" the display shows [0,1,0,1,2,1], which is not the prefix function |
| Kmp.HandleSubmit | src/components/animations/KMPAnimation.tsx:306-409 | an empty field is refused; a pattern longer than the text is refused; otherwise the prefix function and exactly the occurrences, with the display values iff steps are shown |
| HashTable.HashOf | src/components/animations/HashTableAnimation.tsx:26-32 | the slot is below the table size |
| HashTable.UnitsDecode | src/components/animations/HashTableAnimation.tsx:29 | charCodeAt reads a character above 0xFFFF as a high and a low surrogate, which decode back to it |
| HashTable.AstralKeyHash | src/components/animations/HashTableAnimation.tsx:28-29 | U+1F600 hashes as its two surrogates, to slot 0 |
| HashTable.HashFunction | src/components/animations/HashTableAnimation.tsx:26-32 | the loop over key.length UTF-16 code units, reducing modulo 7 after every unit, gives the slot of the whole sum |
| HashTable.ChainFind | src/components/animations/HashTableAnimation.tsx:99 | the value of the first chain entry with that key, or None iff there is none |
| HashTable.TableUpdate | src/components/animations/HashTableAnimation.tsx:35-161 | replacing a key's slot by an updated slot updates that binding only |
| HashTable.Table.Insert | src/components/animations/HashTableAnimation.tsx:35-79 | an empty key or value is refused with nothing changed; otherwise the binding is set and the key sits in its hash slot |
| HashTable.Table.Lookup | src/components/animations/HashTableAnimation.tsx:82-111 | empty key, found with the bound value, or not found, according to the contents |
| HashTable.Table.Delete | src/components/animations/HashTableAnimation.tsx:114-161 | the key is removed from the contents; the result says whether it was there |
| HeapSort.ReplayPermutes | src/components/animations/HeapSortAnimation.tsx:278-346 | replaying the events only permutes the bars |
| HeapSort.RootIsMax | src/components/animations/HeapSortAnimation.tsx:185-212 | the root of a max-heap is its largest element |
| HeapSort.ChooseLargest | src/components/animations/HeapSortAnimation.tsx:216-236 | largest is the node or a strictly larger child, at least both children, after a set-root and compare events |
| HeapSort.Heapify | src/components/animations/HeapSortAnimation.tsx:215-248 | the sift-down restores the heap order; nothing outside [i, n) changes; its events replay to the result and mark nothing |
| HeapSort.BuildMaxHeap | src/components/animations/HeapSortAnimation.tsx:191-193 | the build loop leaves a max-heap, with events that replay to it |
| HeapSort.ExtractAll | src/components/animations/HeapSortAnimation.tsx:196-206 | the extraction loop leaves the array ascending and marks n-1 down to 1 |
| HeapSort.GetHeapSortAnimations | src/components/animations/HeapSortAnimation.tsx:185-212 | the result is sorted and a permutation of the input; the events replay to it, name indices in range and mark every index from the last down |
| MergeSort.Merge | src/components/animations/MergeSortAnimation.tsx:207-262 | the merge has all elements and starts with a head of one run |
| MergeSort.MergeIsStableSort | src/components/animations/MergeSortAnimation.tsx:207-233 | merging sorted runs, ties from the left, is the stable sort of their concatenation |
| MergeSort.MergeSorted | src/components/animations/MergeSortAnimation.tsx:207-262 | the merge of sorted runs is sorted and a permutation of both |
| MergeSort.DoMerge | src/components/animations/MergeSortAnimation.tsx:189-277 | the range receives the merge of both runs of aux, nothing else changes, aux is untouched, and the recorded events are the specified ones |
| MergeSort.MergeSortHelper | src/components/animations/MergeSortAnimation.tsx:174-187 | the range is sorted in main; nothing outside it changes in either array; events stay in range and mark it sorted iff it is the whole array |
| MergeSort.GetMergeSortAnimations | src/components/animations/MergeSortAnimation.tsx:167-172 | the array ends as the stable sort of the input (ascending, a permutation); the events replay to it, stay in range, and mark once for two or more elements |
| MergeSort.EmptyRangeRepeats | src/components/animations/MergeSortAnimation.tsx:170-185 | on an empty array the base case fails and the first recursive call repeats the same range |
| JsonValue.Get | backend/codeforces_scraper.py:50-57 | dict.get finds the value exactly when the key is present |
| JsonValue.FirstTruthy | backend/codechef_scraper.py:65-74 | the `or` chain gives the first truthy value, and none iff all are falsy or absent |
| JsonValue.Iterate | backend/leetcode_scraper.py:20 | iterating a list gives its items, a dict its keys, a string its characters; anything else raises |
| Text.Strip | backend/codechef_scraper.py:78-79 | Python strip: a contiguous piece of the input with no Python whitespace (str.isspace, 0x1C-0x1F and 0x85 included) at either end |
| Text.Trim | src/utils/algorithmUtils.ts:198 | JavaScript trim: a contiguous piece of the input with no ECMAScript whitespace or line terminator at either end |
| Text.StripBySpec | backend/codechef_scraper.py:78-79 | only whitespace is removed: everything before and after the piece is whitespace |
| Text.SpaceSetsDiffer | src/utils/algorithmUtils.ts:198 | Python and JavaScript whitespace differ exactly in 0x1C-0x1F and 0x85 (Python only) and 0xFEFF (JavaScript only) |
| Text.ParseDecimal | src/services/problemsApi.ts:141-142 | parseInt of a natural number's rendering gives it back |
| Text.SplitSpec | src/utils/algorithmUtils.ts:197 | no piece holds the separator, and joining the pieces gives the string back |
| Sorting.SortSorted | backend/leetcode_scraper.py:60 | the stable sort yields a sorted permutation |
| Sorting.SortSortedIsIdentity | backend/codechef_scraper.py:290 | a list already in key order is left unchanged |
| Numbering.KeepAndNumberSpec | backend/codeforces_scraper.py:45-76 | the number-as-you-go loop numbers exactly the kept entries, consecutively and in order |
| Numbering.WalkSpec | backend/leetcode_scraper.py:20-53 | a loop with skip and stop finishes iff no entry stops it; every record comes from its own entry |
| Numbering.WalkKeeps | backend/leetcode_scraper.py:20-53 | a finished walk holds exactly the records the entries keep, front to back |

## Left out

- Network requests, file reads and writes, and browser storage are left
  out; their contents are parameters and results:
  - the scrapers' `requests.get`;
  - the client's `fetch`;
  - `localStorage`;
  - the response cache.
- React state and rendering are left out. State is passed in and returned
  as values. `setTimeout`-driven animation playback is not modelled beyond
  the recorded events.
- Floating point is left out:
  - LeetCode's acceptance rate is kept as its two counts, and `round(..., 1)` is not modelled;
  - CodeChef's `round(60 + id % 40, 1)` is the integer it equals.
- JSON numbers are integers only. Duplicate keys keep the first entry.
  `repr()` does not escape quotes.
- Case mapping (`upper`, `lower`, `toLowerCase`) and `\w` cover ASCII only; Unicode case
  folding is not modelled. Whitespace is each language's full set: Python's
  `str.isspace` for `strip` and `int`, ECMAScript's for `trim`, `\s` and `parseInt`.
- `JsonValue.IntOf`: `int()` of a string accepts an optional sign and ASCII digits only; underscores between digits and non-ASCII decimal digits, which Python also accepts, are not modelled.
- `Kmp.HandleSubmit`, `Kmp.KmpSearch`: text and pattern are sequences of Unicode scalar values. JavaScript counts `length` and indexes in UTF-16 code units, so for text outside the Basic Multilingual Plane the pattern-too-long guard and the reported positions count code points where the source counts code units.
- `AlgorithmUtils.KeyPointsSpec`, `AlgorithmUtils.KeyPoints`: the "longer than 20" test counts code points; JavaScript's `length` counts UTF-16 code units, which differ for sentences holding characters outside the Basic Multilingual Plane.
- `Activity.CodeforcesFuzzy`: the two "longer than 5" tests count code points; JavaScript's `length` counts UTF-16 code units, which differ for names holding characters outside the Basic Multilingual Plane.
- `HashTable.HashFunction`: keys are Unicode text; a JavaScript string holding an unpaired surrogate is not representable.
- `AlgorithmUtils.GroupByCategory`: the groups are kept in insertion order. JavaScript enumerates integer-like keys first, in ascending order; the model does not reorder categories such as "1" or "42".
- Regular-expression results are parameters (`Activity.Captures`):
  - the LeetCode number and slug taken from the URL;
  - the Codeforces URL and title pairs.

  The title-word splitting and the name part matched by
  `/^.*?[-:]\s*(.*?)$/` (no `s` or `m` flag) are modelled.
- Calendar arithmetic is left out. Days are integers and `today` is a
  parameter. `formatDate` is modelled separately, with its key proved
  injective.
- `Codechef.FetchCodechefProblems` takes the fallback table as a parameter. The script passes `Codechef.RealProblems()`, the 107-entry list.
- `PlatformPage.WithSampleTags` takes the sample-tag list as a parameter.
- JavaScript object prototype keys (`toString`, `__proto__` used as a category or id) are not modelled.
- `ProblemsApi.KeyId` follows `parseInt` for keys without a sign or hex prefix only. The client never writes such keys.
- `ProblemsApi.Paginate`: requires `perPage > 0`. The queries always pass a positive page size (30 by default, 50 for CodeChef). A zero page size would divide by zero and is not modelled.
- `ProblemsApi.SortStage`: sorting by title (`localeCompare`) is not modelled. An unknown sort key, which compares as equal, is modelled and leaves the list as it is.
- `ProblemsApi.Filters`: the `status` filter field is accepted but never applied by the queries, so it is omitted.
- `Leetcode.SortById`: numeric (or boolean) ids are ordered as numbers. Ids that are all strings, or all lists, which Python sorts without error (strings by code point, lists element by element), are not ordered: the model writes no file for them. Dictionary and `None` ids, and ids of mixed kinds, raise in Python and write no file, as modelled.
- `MergeSort.GetMergeSortAnimations`: requires a non-empty array. On an empty array the source recurses on the same range without end (`MergeSort.EmptyRangeRepeats`) until the JavaScript engine throws a `RangeError` for the exhausted call stack, which a terminating model cannot state.
- `HeapSort.GetHeapSortAnimations` on an empty array records the source's trailing mark-sorted event for index 0 as it is.
- `formatComplexity`, `formatCodeSnippet`, `getAlgorithmAnimation` and the implementation map are left out. They are string formatting and component lookup with no logic to verify.
- `Activity.CombinedStatusSpec` states the LeetCode branch as an if-and-only-if against `LeetcodeMatch`. For the Codeforces branch it states precedence and the status set only; `Activity.DirectIdMatch` covers the direct id hit.

## Findings

| source | as written | input that shows it | evidently intended | confidence | as-written member | corrected member |
|---|---|---|---|---|---|---|
| src/components/animations/KMPAnimation.tsx:73-163 | the step display writes LPS values into copies, so the array it falls back through stays all zeros; the displayed values and the final array are wrong | pattern "AABAAA": index 5 is shown as 1, the true value is 2, and the final array is all zeros | the display shows the prefix function the search uses | high, not executed | Kmp.ShownLpsIsWrong | Kmp.ComputeLps |
| src/services/problemsApi.ts:202-206 | the queries look bookmarks up under 'LeetCode', 'Codeforces', 'CodeChef', while the hook writes keys 'leetcode-1' and so on | LeetCode problem 1 bookmarked through the hook, then "bookmarked only": the list is empty | look the bookmarks up under the source the problems carry | high, not executed | ProblemsApi.AsWrittenBookmarkedOnlyEmpty | ProblemsApi.SiteBookmarksFound |
| src/services/activityTrackingService.ts:123-166 | the streak loop starts counting at today, so when today has no activity yet the yesterday check is dead and the streak is 0 | a log with one entry for yesterday: streak 0 | count the run ending yesterday while today is still empty | high, not executed | Activity.AsWrittenDropsYesterday | Activity.StreakSpec |
| src/pages/PlatformPage.tsx:1067 | the bookmark button calls `toggleBookmark(problem.id)` without a source, writing 'unknown-<id>', while the list reads '<source>-<id>' | any fetched LeetCode problem: clicking its bookmark leaves its icon unchanged | toggle under the problem's own source | high, not executed | PlatformPage.AsWrittenClickNotShown | PlatformPage.BookmarkClickSpec |
