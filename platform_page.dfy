/** `PlatformPage`: the catalogue page's own logic on top of the queries:
    the Codeforces rating label, the status cycle, the client-side status
    and bookmark filter, the topic filter with its all-topics-first order,
    the client-side page window and the page and topic handlers.  React
    state is passed in and returned as values. */
module PlatformPage {
  import opened Wrappers
  import opened Sorting
  import opened Numbering
  import opened Catalogue
  import opened ProblemUserData
  import ProblemsApi
  import Codeforces
  import opened Text

  /** `itemsPerPage`. */
  const ItemsPerPage: int := 30

  // ------------------------------------------------------ difficulty

  /** `getCodeforcesDifficulty`: the stored label for a problem without
      points, otherwise the label of its rating range. */
  function CodeforcesDifficulty(p: Problem): string {
    if p.points.None? then p.difficulty
    else
      var n := p.points.value;
      if n <= 1000 then "Beginner"
      else if n <= 1300 then "Easy"
      else if n <= 1600 then "Lower-Mid"
      else if n <= 1900 then "Mid-Level"
      else if n <= 2200 then "Upper-Mid"
      else if n <= 2500 then "Hard"
      else "Very Hard"
  }

  /** The page labels a rated problem exactly as the scraper's bands do,
      and the query's range filter keeps a problem under a band label
      exactly when the page shows that label for it. */
  lemma CodeforcesDifficultySpec(p: Problem, d: string)
    ensures p.points.Some? ==> CodeforcesDifficulty(p) == Codeforces.Band(p.points.value)
    ensures d in Codeforces.BandLabels ==> (ProblemsApi.BandKeeps(d, p) <==> CodeforcesDifficulty(p) == d)
  {
    if p.points.Some? && d in Codeforces.BandLabels {
      ProblemsApi.BandFilterAgrees(d, p);
    }
  }

  // ------------------------------------------------------ status

  /** The switch of `toggleProblemStatus`. */
  function NextStatus(current: string): string {
    if current == NotAttempted then Attempted
    else if current == Attempted then Solved
    else if current == Solved then NotAttempted
    else Attempted
  }

  /** Every status moves on to a different status; an unknown value goes
      to 'Attempted'; three steps from a status come back to it. */
  lemma NextStatusSpec(current: string)
    ensures IsStatus(NextStatus(current))
    ensures NextStatus(current) != current
    ensures !IsStatus(current) ==> NextStatus(current) == Attempted
    ensures IsStatus(current) ==> NextStatus(NextStatus(NextStatus(current))) == current
  {
  }

  /** `toggleProblemStatus`: a no-op except on the LeetCode page, where the
      next status is written under the 'leetcode' source. */
  function ToggleProblemStatus(platform: string, store: Store, id: int, current: string): Store {
    if platform != "leetcode" then store
    else UpdateStatus(store, id, NextStatus(current), "leetcode")
  }

  /** On the LeetCode page the problem now reads as the next status and no
      other key changes; elsewhere nothing changes. */
  lemma ToggleProblemStatusSpec(platform: string, store: Store, id: int, current: string, other: string)
    ensures platform != "leetcode" ==> ToggleProblemStatus(platform, store, id, current) == store
    ensures platform == "leetcode" ==>
              var after := ToggleProblemStatus(platform, store, id, current);
              GetStatus(after, id, "leetcode") == NextStatus(current)
              && IsBookmarked(after, id, "leetcode") == IsBookmarked(store, id, "leetcode")
              && (other != CompositeId(id, "leetcode") ==> Lookup(after, other) == Lookup(store, other))
  {
    if platform == "leetcode" {
      NextStatusSpec(current);
      UpdateStatusSpec(store, id, NextStatus(current), "leetcode", other);
    }
  }

  /** Clicking the status of a LeetCode problem three times, each time
      from the status it shows, brings it back to where it started. */
  lemma ThreeClicks(store: Store, id: int)
    requires IsStatus(GetStatus(store, id, "leetcode"))
    ensures var s1 := ToggleProblemStatus("leetcode", store, id, GetStatus(store, id, "leetcode"));
            var s2 := ToggleProblemStatus("leetcode", s1, id, GetStatus(s1, id, "leetcode"));
            var s3 := ToggleProblemStatus("leetcode", s2, id, GetStatus(s2, id, "leetcode"));
            GetStatus(s3, id, "leetcode") == GetStatus(store, id, "leetcode")
  {
    var s0 := GetStatus(store, id, "leetcode");
    var key := CompositeId(id, "leetcode");
    var s1 := ToggleProblemStatus("leetcode", store, id, s0);
    ToggleProblemStatusSpec("leetcode", store, id, s0, key);
    var s2 := ToggleProblemStatus("leetcode", s1, id, GetStatus(s1, id, "leetcode"));
    ToggleProblemStatusSpec("leetcode", s1, id, GetStatus(s1, id, "leetcode"), key);
    ToggleProblemStatusSpec("leetcode", s2, id, GetStatus(s2, id, "leetcode"), key);
    NextStatusSpec(s0);
  }

  /** The bookmark button of the table as written: `toggleBookmark(problem.id)`
      without a source, so the hook files the bookmark under 'unknown'. */
  function AsWrittenBookmarkClick(store: Store, p: Problem): Store {
    ToggleBookmark(store, p.id, "unknown")
  }

  /** As written, clicking the bookmark of a problem that carries a source
      (every fetched problem does) changes nothing the list shows for it:
      the click writes `unknown-<id>` while the list reads `<source>-<id>`. */
  lemma AsWrittenClickNotShown(problems: seq<Problem>, store: Store, i: int)
    requires 0 <= i < |problems|
    requires SourceOf(problems[i]) != "unknown" && Lacks(SourceOf(problems[i]), '-')
    ensures WithUserData(problems, AsWrittenBookmarkClick(store, problems[i]))[i] == WithUserData(problems, store)[i]
  {
    var p := problems[i];
    var key := CompositeId(p.id, SourceOf(p));
    ToggleBookmarkSpec(store, p.id, "unknown", key);
    if key == CompositeId(p.id, "unknown") {
      CompositeIdInjective(p.id, SourceOf(p), p.id, "unknown");
    }
  }

  /** The click the button is meant to make: toggle under the source the
      list reads the bookmark from. */
  function BookmarkClick(store: Store, p: Problem): Store {
    ToggleBookmark(store, p.id, SourceOf(p))
  }

  /** Clicking flips the flag the list shows for the problem, and a second
      click restores it. */
  lemma BookmarkClickSpec(problems: seq<Problem>, store: Store, i: int)
    requires 0 <= i < |problems|
    ensures WithUserData(problems, BookmarkClick(store, problems[i]))[i].bookmarked
              == !WithUserData(problems, store)[i].bookmarked
    ensures WithUserData(problems, BookmarkClick(BookmarkClick(store, problems[i]), problems[i]))[i].bookmarked
              == WithUserData(problems, store)[i].bookmarked
  {
    ToggleShows(problems, store, i, i);
    ToggleTwice(store, problems[i].id, SourceOf(problems[i]));
  }

  // ------------------------------------------------------ client filter

  function StatusKeep(selectedStatus: string, bookmarkedOnly: bool): Annotated -> bool {
    (a: Annotated) => (selectedStatus == "All" || a.status == selectedStatus) && (!bookmarkedOnly || a.bookmarked)
  }

  /** `filteredProblemsWithUserData`. */
  function ClientFiltered(list: seq<Annotated>, selectedStatus: string, bookmarkedOnly: bool): seq<Annotated> {
    Filter(list, StatusKeep(selectedStatus, bookmarkedOnly))
  }

  /** A listed problem survives exactly when it has the selected status
      (any, for 'All') and, if asked, is bookmarked; with neither filter
      set the list is unchanged. */
  lemma ClientFilteredSpec(list: seq<Annotated>, selectedStatus: string, bookmarkedOnly: bool, a: Annotated)
    ensures a in ClientFiltered(list, selectedStatus, bookmarkedOnly) <==>
              a in list && (selectedStatus == "All" || a.status == selectedStatus) && (!bookmarkedOnly || a.bookmarked)
    ensures selectedStatus == "All" && !bookmarkedOnly ==> ClientFiltered(list, selectedStatus, bookmarkedOnly) == list
  {
    FilterSpec(list, StatusKeep(selectedStatus, bookmarkedOnly));
    if selectedStatus == "All" && !bookmarkedOnly {
      FilterAll(list, StatusKeep(selectedStatus, bookmarkedOnly));
    }
  }

  // ------------------------------------------------------ pagination

  datatype Window<T> = Window(items: seq<T>, totalPages: nat, adjustedPage: int)

  /** The client-side window: `Math.min(currentPage, totalPages || 1)`,
      then a slice of `itemsPerPage` from that page's start. */
  function ClientWindow<T>(s: seq<T>, currentPage: int): Window<T> {
    var totalPages := ProblemsApi.CeilDiv(|s|, ItemsPerPage);
    var adjusted := ProblemsApi.Min(currentPage, if totalPages == 0 then 1 else totalPages);
    var start := (adjusted - 1) * ItemsPerPage;
    Window(ProblemsApi.JsSlice(s, start, start + ItemsPerPage), totalPages, adjusted)
  }

  /** `filteredPaginationInfo`: the server's page as it is when neither
      client filter is set, the client window of the filtered list
      otherwise. */
  function PaginationInfo(list: seq<Annotated>, selectedStatus: string, bookmarkedOnly: bool, currentPage: int,
                          serverTotal: int, serverPages: int): (seq<Annotated>, int, int)
  {
    var filtered := ClientFiltered(list, selectedStatus, bookmarkedOnly);
    if selectedStatus == "All" && !bookmarkedOnly then (filtered, serverTotal, serverPages)
    else
      var w := ClientWindow(filtered, currentPage);
      (w.items, |filtered|, w.totalPages)
  }

  /** For a current page of at least 1 the adjusted page lies in
      `[1, max(totalPages, 1)]`, is the current page when that is in range,
      and the window is the next at most 30 items from its start, empty
      only for an empty list. */
  lemma ClientWindowSpec<T>(s: seq<T>, currentPage: int)
    requires currentPage >= 1
    ensures var w := ClientWindow(s, currentPage);
            var start := (w.adjustedPage - 1) * ItemsPerPage;
            1 <= w.adjustedPage <= ProblemsApi.Max(w.totalPages, 1)
            && (currentPage <= w.totalPages ==> w.adjustedPage == currentPage)
            && w.totalPages * ItemsPerPage >= |s|
            && 0 <= start && (|s| > 0 ==> start < |s|)
            && w.items == s[start..ProblemsApi.Min(start + ItemsPerPage, |s|)]
            && |w.items| <= ItemsPerPage
            && (w.items == [] <==> s == [])
  {
    var totalPages := ProblemsApi.CeilDiv(|s|, ItemsPerPage);
    ProblemsApi.CeilDivSpec(|s|, ItemsPerPage);
    var w := ClientWindow(s, currentPage);
    ProblemsApi.MulMonotone(0, w.adjustedPage - 1, ItemsPerPage);
    if |s| > 0 {
      ProblemsApi.MulMonotone(w.adjustedPage - 1, totalPages - 1, ItemsPerPage);
    }
  }

  /** With neither client filter set the server's page is shown as it
      is; otherwise the page lists at most 30 problems, each passing the
      client filter, and counts all that pass. */
  lemma PaginationInfoSpec(list: seq<Annotated>, selectedStatus: string, bookmarkedOnly: bool, currentPage: int,
                           serverTotal: int, serverPages: int, a: Annotated)
    requires currentPage >= 1
    ensures selectedStatus == "All" && !bookmarkedOnly ==>
              PaginationInfo(list, selectedStatus, bookmarkedOnly, currentPage, serverTotal, serverPages)
                == (list, serverTotal, serverPages)
    ensures selectedStatus != "All" || bookmarkedOnly ==>
              var info := PaginationInfo(list, selectedStatus, bookmarkedOnly, currentPage, serverTotal, serverPages);
              info.1 == |ClientFiltered(list, selectedStatus, bookmarkedOnly)| && |info.0| <= ItemsPerPage
              && (a in info.0 ==> a in list && StatusKeep(selectedStatus, bookmarkedOnly)(a))
  {
    var filtered := ClientFiltered(list, selectedStatus, bookmarkedOnly);
    ClientFilteredSpec(list, selectedStatus, bookmarkedOnly, a);
    if selectedStatus != "All" || bookmarkedOnly {
      WindowMember(filtered, currentPage, a);
    }
  }

  /** What the window lists comes from the list. */
  lemma WindowMember<T>(s: seq<T>, currentPage: int, x: T)
    requires currentPage >= 1
    ensures |ClientWindow(s, currentPage).items| <= ItemsPerPage
    ensures x in ClientWindow(s, currentPage).items ==> x in s
  {
    ClientWindowSpec(s, currentPage);
    var w := ClientWindow(s, currentPage);
    var start := (w.adjustedPage - 1) * ItemsPerPage;
    if x in w.items {
      var k :| 0 <= k < |w.items| && w.items[k] == x;
      assert x == s[start + k];
    }
  }

  /** `handlePageChange`: `Math.max(1, Math.min(newPage, totalPages))`. */
  function HandlePageChange(newPage: int, totalPages: nat): int {
    ProblemsApi.Max(1, ProblemsApi.Min(newPage, totalPages))
  }

  /** The new page is at least 1 and at most the page count when there is
      a page; with no pages it is 1; a page in range is taken as it is. */
  lemma HandlePageChangeSpec(newPage: int, totalPages: nat)
    ensures 1 <= HandlePageChange(newPage, totalPages)
    ensures totalPages >= 1 ==> HandlePageChange(newPage, totalPages) <= totalPages
    ensures totalPages == 0 ==> HandlePageChange(newPage, totalPages) == 1
    ensures 1 <= newPage <= totalPages ==> HandlePageChange(newPage, totalPages) == newPage
  {
  }

  // ------------------------------------------------------ topics

  /** No topic is selected twice. */
  predicate NoDuplicates(topics: seq<string>) {
    forall i, j :: 0 <= i < j < |topics| ==> topics[i] != topics[j]
  }

  /** `handleTopicChange`: '' is ignored, a topic already selected is not
      added again, any other topic is appended. */
  function HandleTopicChange(topics: seq<string>, topic: string): seq<string> {
    if topic == "" || topic in topics then topics else topics + [topic]
  }

  lemma HandleTopicChangeSpec(topics: seq<string>, topic: string, t: string)
    ensures topic == "" ==> HandleTopicChange(topics, topic) == topics
    ensures topic != "" ==> topic in HandleTopicChange(topics, topic)
    ensures t in HandleTopicChange(topics, topic) <==> t in topics || (t == topic && topic != "")
    ensures NoDuplicates(topics) ==> NoDuplicates(HandleTopicChange(topics, topic))
    ensures HandleTopicChange(topics, topic)[..|topics|] == topics
  {
  }

  function Other(t: string): string -> bool {
    (x: string) => x != t
  }

  /** `removeTopic`. */
  function RemoveTopic(topics: seq<string>, t: string): seq<string> {
    Filter(topics, Other(t))
  }

  /** The topic is gone, every other topic is kept, and removing a topic
      that was not selected changes nothing. */
  lemma RemoveTopicSpec(topics: seq<string>, t: string, x: string)
    ensures t !in RemoveTopic(topics, t)
    ensures x != t ==> (x in RemoveTopic(topics, t) <==> x in topics)
    ensures t !in topics ==> RemoveTopic(topics, t) == topics
  {
    FilterSpec(topics, Other(t));
    if t !in topics {
      KeepAll(topics, Other(t));
    }
  }

  /** A test every entry of the list passes keeps the list as it is. */
  lemma {:induction false} KeepAll<T>(s: seq<T>, keep: T -> bool)
    requires forall i :: 0 <= i < |s| ==> keep(s[i])
    ensures Filter(s, keep) == s
  {
    if s != [] {
      KeepAll(s[..|s| - 1], keep);
    }
  }

  /** Problems without tags are given `sampleTags[index % 10]`; the table
      is a parameter. */
  function WithSampleTags(problems: seq<Problem>, sample: seq<seq<string>>): seq<Problem>
    requires |sample| > 0
  {
    seq(|problems|, i requires 0 <= i < |problems| =>
      if ProblemsApi.HasTags(problems[i]) then problems[i]
      else problems[i].(tags := Some(sample[i % |sample|])))
  }

  /** A problem with tags is kept as it is; any other gets the sample
      entry of its position, so with non-empty samples every problem ends
      up with tags. */
  lemma WithSampleTagsSpec(problems: seq<Problem>, sample: seq<seq<string>>, i: int)
    requires |sample| > 0 && 0 <= i < |problems|
    ensures var r := WithSampleTags(problems, sample);
            |r| == |problems|
            && (ProblemsApi.HasTags(problems[i]) ==> r[i] == problems[i])
            && (!ProblemsApi.HasTags(problems[i]) ==> r[i] == problems[i].(tags := Some(sample[i % |sample|])))
            && ((forall k :: 0 <= k < |sample| ==> sample[k] != []) ==> ProblemsApi.HasTags(r[i]))
  {
  }

  /** `selectedTopics.some(...)`: the tag test of the queries. */
  function AnyTopic(topics: seq<string>): Problem -> bool {
    (p: Problem) => ProblemsApi.TagHit(p.tags, topics)
  }

  /** `selectedTopics.every(...)`: every topic occurs, ignoring case, in
      some tag. */
  predicate HasAllTopics(p: Problem, topics: seq<string>) {
    p.tags.Some? && |p.tags.value| > 0
    && forall i :: 0 <= i < |topics| ==> ProblemsApi.SomeTagHas(p.tags.value, topics[i])
  }

  function AllTopics(topics: seq<string>): Problem -> bool {
    (p: Problem) => HasAllTopics(p, topics)
  }

  /** `allTopicsIds`. */
  function AllTopicsIds(matching: seq<Problem>, topics: seq<string>): set<int> {
    set p | p in Filter(matching, AllTopics(topics)) :: p.id
  }

  /** `allTopicsIds.has(p.id)`. */
  function InIds(ids: set<int>): Problem -> bool {
    (p: Problem) => p.id in ids
  }

  /** The comparator as a key: the entries passing `front` first. */
  function FrontFirst<T>(front: T -> bool): T -> int {
    (x: T) => if front(x) then 0 else 1
  }

  function Not<T>(f: T -> bool): T -> bool {
    (x: T) => !f(x)
  }

  /** The topic filter: the problems matching any topic, then the stable
      sort that moves the ids matching all topics to the front. */
  function TopicFiltered(problems: seq<Problem>, topics: seq<string>): seq<Problem> {
    var matching := Filter(problems, AnyTopic(topics));
    SortByKey(matching, FrontFirst(InIds(AllTopicsIds(matching, topics))))
  }

  /** Inserting an entry that fails `front` into a list whose passing
      entries all come first places it right after them. */
  lemma {:induction false} InsertAfterFront<T>(x: T, a: seq<T>, b: seq<T>, front: T -> bool)
    requires !front(x)
    requires forall i :: 0 <= i < |a| ==> front(a[i])
    requires forall i :: 0 <= i < |b| ==> !front(b[i])
    ensures InsertByKey(x, a + b, FrontFirst(front)) == a + [x] + b
  {
    if a == [] {
      assert a + b == b;
      if b != [] {
        assert !front(b[0]);
      }
    } else {
      assert (a + b)[1..] == a[1..] + b;
      InsertAfterFront(x, a[1..], b, front);
      assert (a + b)[0] == a[0] && front(a[0]);
    }
  }

  /** `[x] + t` filtered: `x` first if it passes, then the filter of `t`. */
  lemma FilterCons<T>(x: T, t: seq<T>, keep: T -> bool)
    ensures Filter([x] + t, keep) == (if keep(x) then [x] else []) + Filter(t, keep)
  {
    FilterAppend([x], t, keep);
    assert [x][..0] == [];
  }

  lemma Associative<T>(a: seq<T>, b: seq<T>, c: seq<T>)
    ensures a + (b + c) == (a + b) + c
  {
  }

  /** Sorting stably with the entries passing `front` first is a stable
      partition: the passing entries in their order, then the others in
      theirs. */
  lemma {:induction false} SortPartitions<T>(s: seq<T>, front: T -> bool)
    ensures SortByKey(s, FrontFirst(front)) == Filter(s, front) + Filter(s, Not(front))
  {
    if s != [] {
      var x, t := s[0], s[1..];
      assert s == [x] + t;
      SortPartitions(t, front);
      FilterCons(x, t, front);
      FilterCons(x, t, Not(front));
      var a, b := Filter(t, front), Filter(t, Not(front));
      var key := FrontFirst(front);
      assert SortByKey(s, key) == InsertByKey(x, a + b, key);
      if front(x) {
        assert Filter(s, front) == [x] + a && Filter(s, Not(front)) == b;
        assert InsertByKey(x, a + b, key) == [x] + (a + b);
        Associative([x], a, b);
      } else {
        assert Filter(s, front) == a && Filter(s, Not(front)) == [x] + b;
        FilterKept(t, front);
        FilterKept(t, Not(front));
        assert forall i :: 0 <= i < |b| ==> Not(front)(b[i]);
        InsertAfterFront(x, a, b, front);
        Associative(a, [x], b);
      }
    }
  }

  /** A problem matching every selected topic matches one of them. */
  lemma AllIsAny(p: Problem, topics: seq<string>)
    requires |topics| > 0 && HasAllTopics(p, topics)
    ensures ProblemsApi.TagHit(p.tags, topics)
  {
    ProblemsApi.SomeWantedSpec(p.tags.value, topics);
  }

  /** The topic filter keeps exactly the problems matching some topic and
      reorders them only: first, in their order, those whose id belongs to
      a problem matching every topic, then the rest in theirs. */
  lemma TopicFilteredSpec(problems: seq<Problem>, topics: seq<string>, p: Problem)
    requires |topics| > 0
    ensures var matching := Filter(problems, AnyTopic(topics));
            var ids := AllTopicsIds(matching, topics);
            var r := TopicFiltered(problems, topics);
            multiset(r) == multiset(matching)
            && (p in r <==> p in problems && ProblemsApi.TagHit(p.tags, topics))
            && r == Filter(matching, InIds(ids)) + Filter(matching, Not(InIds(ids)))
            && (forall i, j :: 0 <= i < j < |r| && r[j].id in ids ==> r[i].id in ids)
            && (p in problems && HasAllTopics(p, topics) ==> p.id in ids)
  {
    TopicFilteredOrder(problems, topics);
    TopicFilteredMembers(problems, topics, p);
  }

  lemma TopicFilteredOrder(problems: seq<Problem>, topics: seq<string>)
    ensures var matching := Filter(problems, AnyTopic(topics));
            var ids := AllTopicsIds(matching, topics);
            var r := TopicFiltered(problems, topics);
            multiset(r) == multiset(matching)
            && r == Filter(matching, InIds(ids)) + Filter(matching, Not(InIds(ids)))
            && (forall i, j :: 0 <= i < j < |r| && r[j].id in ids ==> r[i].id in ids)
  {
    var matching := Filter(problems, AnyTopic(topics));
    var ids := AllTopicsIds(matching, topics);
    var key := FrontFirst(InIds(ids));
    var r := TopicFiltered(problems, topics);
    SortSorted(matching, key);
    SortPartitions(matching, InIds(ids));
    forall i, j | 0 <= i < j < |r| && r[j].id in ids
      ensures r[i].id in ids
    {
      assert key(r[i]) <= key(r[j]);
    }
  }

  lemma TopicFilteredMembers(problems: seq<Problem>, topics: seq<string>, p: Problem)
    requires |topics| > 0
    ensures var matching := Filter(problems, AnyTopic(topics));
            var r := TopicFiltered(problems, topics);
            (p in r <==> p in problems && ProblemsApi.TagHit(p.tags, topics))
            && (p in problems && HasAllTopics(p, topics) ==> p.id in AllTopicsIds(matching, topics))
  {
    var matching := Filter(problems, AnyTopic(topics));
    var r := TopicFiltered(problems, topics);
    SortSorted(matching, FrontFirst(InIds(AllTopicsIds(matching, topics))));
    FilterSpec(problems, AnyTopic(topics));
    assert p in r <==> p in multiset(r);
    if p in problems && HasAllTopics(p, topics) {
      AllIsAny(p, topics);
      FilterSpec(matching, AllTopics(topics));
      assert p in Filter(matching, AllTopics(topics));
    }
  }
}
