/** The LeetCode scraper `scrape_leetcode`: the record loop over
    `stat_status_pairs`, the positional level map, the skip on a missing
    key, the empty-output guard and the sort by id. */
module Leetcode {
  import opened Wrappers
  import opened Text
  import opened JsonValue
  import opened Sorting
  import opened Numbering

  const ProblemUrlPrefix: string := "https://leetcode.com/problems/"

  /** The list indexed by `level - 1`. */
  const LevelNames: seq<string> := ["Easy", "Medium", "Hard"]

  /** Python indexing `s[i]`: a negative index counts from the end, and an
      index outside `-|s| <= i < |s|` raises (`None`). */
  function PyIndex<T>(s: seq<T>, i: int): (r: Option<T>)
    ensures r.Some? <==> -|s| <= i < |s|
    ensures 0 <= i < |s| ==> r == Some(s[i])
  {
    if 0 <= i < |s| then Some(s[i])
    else if -|s| <= i < 0 then Some(s[|s| + i])
    else None
  }

  /** `["Easy", "Medium", "Hard"][level - 1]`. */
  function LevelLabel(level: int): Option<string> {
    PyIndex(LevelNames, level - 1)
  }

  /** Levels 1, 2 and 3 map to Easy, Medium and Hard in turn; level 0
      reaches back to Hard and -1 to Medium, -2 to Easy; any other level
      raises. */
  lemma LevelLabelSpec(level: int)
    ensures LevelLabel(level).Some? <==> -2 <= level <= 3
    ensures LevelLabel(level).Some? ==> LevelLabel(level).value in LevelNames
    ensures level == 1 ==> LevelLabel(level) == Some("Easy")
    ensures level == 2 ==> LevelLabel(level) == Some("Medium")
    ensures level == 3 ==> LevelLabel(level) == Some("Hard")
    ensures level == 0 ==> LevelLabel(level) == Some("Hard")
    ensures level == -1 ==> LevelLabel(level) == Some("Medium")
    ensures level == -2 ==> LevelLabel(level) == Some("Easy")
  {
  }

  /** The acceptance rate: 0 without submissions, otherwise
      `round(acs / submitted * 100, 1)`, kept here as the two counts. */
  datatype Acceptance = NoSubmissions | Rate(acs: int, submitted: int)

  datatype LcProblem = LcProblem(
    id: Json, title: Json, difficulty: string, url: string, slug: Json,
    acceptance: Acceptance, tags: Json, source: string)

  /** The acceptance rate of `total_acs` over `total_submitted`, or `None`
      when the comparison or the division raises. */
  function AcceptanceOf(acs: Json, submitted: Json): (r: Option<Acceptance>)
  {
    match Number(submitted)
    case None => None
    case Some(n) =>
      if n > 0 then
        (match Number(acs)
         case None => None
         case Some(a) => Some(Rate(a, n)))
      else Some(NoSubmissions)
  }

  /** The loop body on one entry of `stat_status_pairs`, looking keys up in
      the order the source does: a `KeyError` skips the entry, any other
      exception stops the script. */
  function Extract(item: Json): Step<LcProblem>
  {
    if !item.JObj? then Stop
    else
      var fields := item.fields;
      match Get(fields, "stat")
      case None => Skip
      case Some(statValue) =>
        if !statValue.JObj? then Stop
        else
          var stat := statValue.fields;
          match (Get(stat, "question_id"), Get(stat, "question__title"), Get(stat, "question__title_slug"))
          case (Some(questionId), Some(title), Some(slug)) =>
            (match Get(fields, "difficulty")
             case None => Skip
             case Some(difficultyValue) =>
               if !difficultyValue.JObj? then Stop
               else
                 match (Get(difficultyValue.fields, "level"), Get(stat, "total_submitted"), Get(stat, "total_acs"))
                 case (Some(level), Some(submitted), Some(acs)) =>
                   (match (AcceptanceOf(acs, submitted), Number(level))
                    case (Some(acceptance), Some(n)) =>
                      (match LevelLabel(n)
                       case None => Stop
                       case Some(difficulty) =>
                         var tags := if HasKey(fields, "tags") then Get(fields, "tags").value else JArr([]);
                         Keep(LcProblem(questionId, title, difficulty, ProblemUrlPrefix + Str(slug) + "/",
                                        slug, acceptance, tags, "leetcode")))
                    case _ => Stop)
                 case _ => Skip)
          case _ => Skip
  }

  /** The entry raises `KeyError` before anything else goes wrong: a key
      the loop body looks up is missing, in the order of the lookups
      (`stat`, its three question keys, `difficulty`, its `level`, then the
      two submission counts), with `stat` and `difficulty` dicts where they
      are indexed. */
  predicate MissingKey(item: Json) {
    item.JObj?
    && var fields := item.fields;
       (!HasKey(fields, "stat")
        || (Get(fields, "stat").value.JObj?
            && var stat := Get(fields, "stat").value.fields;
               (!HasKey(stat, "question_id") || !HasKey(stat, "question__title")
                || !HasKey(stat, "question__title_slug") || !HasKey(fields, "difficulty")
                || (Get(fields, "difficulty").value.JObj?
                    && (!HasKey(Get(fields, "difficulty").value.fields, "level")
                        || !HasKey(stat, "total_submitted") || !HasKey(stat, "total_acs"))))))
  }

  /** An entry is skipped exactly when a looked-up key is missing: only
      the `KeyError` is caught. */
  lemma ExtractSkip(item: Json)
    ensures Extract(item) == Skip <==> MissingKey(item)
  {
  }

  /** A kept record carries the question id, title and slug, a URL built
      from the slug, the label of `difficulty.level`, the acceptance of the
      two counts, the entry's tags (an empty list without them) and the
      source "leetcode". */
  lemma ExtractSpec(item: Json)
    ensures Extract(item).Keep? ==>
              var p := Extract(item).value;
              var stat := Get(item.fields, "stat").value.fields;
              var level := Get(Get(item.fields, "difficulty").value.fields, "level").value;
              var submitted := Number(Get(stat, "total_submitted").value).value;
              item.JObj? && Get(item.fields, "stat").value.JObj?
              && Some(p.id) == Get(stat, "question_id") && Some(p.title) == Get(stat, "question__title")
              && Some(p.slug) == Get(stat, "question__title_slug")
              && p.url == ProblemUrlPrefix + Str(p.slug) + "/"
              && p.source == "leetcode"
              && Number(level).Some? && Some(p.difficulty) == LevelLabel(Number(level).value)
              && p.difficulty in LevelNames
              && (submitted <= 0 ==> p.acceptance == NoSubmissions)
              && (submitted > 0 ==> p.acceptance == Rate(Number(Get(stat, "total_acs").value).value, submitted))
              && (HasKey(item.fields, "tags") ==> Some(p.tags) == Get(item.fields, "tags"))
              && (!HasKey(item.fields, "tags") ==> p.tags == JArr([]))
  {
    if Extract(item).Keep? {
      var level := Get(Get(item.fields, "difficulty").value.fields, "level").value;
      LevelLabelSpec(Number(level).value);
    }
  }

  /** A level outside -2..3 makes the list index raise `IndexError`, which
      the loop does not catch: the script stops. */
  lemma OutOfRangeLevelStops(fields: seq<(string, Json)>, stat: seq<(string, Json)>,
                             difficulty: seq<(string, Json)>, level: int)
    requires Get(fields, "stat") == Some(JObj(stat)) && Get(fields, "difficulty") == Some(JObj(difficulty))
    requires HasKey(stat, "question_id") && HasKey(stat, "question__title") && HasKey(stat, "question__title_slug")
    requires HasKey(stat, "total_submitted") && HasKey(stat, "total_acs")
    requires Get(difficulty, "level") == Some(JNum(level)) && !(-2 <= level <= 3)
    ensures Extract(JObj(fields)) == Stop
  {
    LevelLabelSpec(level);
  }

  /** The records of the loop over `items`, or `None` when an entry stops
      the script. */
  function Collected(items: seq<Json>): Option<seq<LcProblem>> {
    Walk(items, Extract)
  }

  /** An entry missing a looked-up key is skipped and the entries after it
      are still processed. */
  lemma MissingKeySkipped(before: seq<Json>, item: Json, after: seq<Json>)
    requires MissingKey(item)
    ensures Collected(before + [item] + after) == Collected(before + after)
  {
    ExtractSkip(item);
    SkipContinues(before, item, after, Extract);
  }

  /** The loop finishes exactly when no entry stops the script, and then
      the records are exactly those the entries keep, each from its own
      entry, in input order. */
  lemma CollectedSpec(items: seq<Json>)
    ensures Collected(items).Some? <==> forall i :: 0 <= i < |items| ==> !Extract(items[i]).Stop?
    ensures Collected(items).Some? ==> Collected(items).value == KeptValues(items, Extract)
    ensures Collected(items).Some? ==>
              forall k :: 0 <= k < |Collected(items).value| ==>
                exists i :: 0 <= i < |items| && Extract(items[i]) == Keep(Collected(items).value[k])
  {
    WalkSpec(items, Extract);
    WalkKeeps(items, Extract);
  }

  /** The loop of `scrape_leetcode` over the entries. */
  method CollectProblems(items: seq<Json>) returns (problems: Option<seq<LcProblem>>)
    ensures problems == Collected(items)
  {
    var acc: seq<LcProblem> := [];
    for i := 0 to |items|
      invariant Collected(items[..i]) == Some(acc)
    {
      assert items[..i + 1] == items[..i] + [items[i]];
      WalkSnoc(items[..i], items[i], Extract);
      match Extract(items[i]) {
        case Stop =>
          WalkAppend(items[..i + 1], items[i + 1..], Extract);
          assert items[..i + 1] + items[i + 1..] == items;
          return None;
        case Skip =>
        case Keep(p) =>
          acc := acc + [p];
      }
    }
    assert items[..|items|] == items;
    problems := Some(acc);
  }

  // ------------------------------------------------------ the script

  /** Ids compare as numbers (booleans as 0 and 1). */
  predicate NumericIds(problems: seq<LcProblem>) {
    forall k :: 0 <= k < |problems| ==> Number(problems[k].id).Some?
  }

  function IdKey(p: LcProblem): int {
    Number(p.id).GetOr(0)
  }

  datatype Saved = Saved(totalProblems: int, lastUpdated: string, problems: seq<LcProblem>)

  /** `problems.sort(key=lambda x: x["id"])`: a stable sort by numeric id;
      a single record needs no comparison; otherwise comparing ids that
      are not numbers raises (`None`). */
  function SortById(problems: seq<LcProblem>): Option<seq<LcProblem>> {
    if NumericIds(problems) then Some(SortByKey(problems, IdKey))
    else if |problems| <= 1 then Some(problems)
    else None
  }

  /** The whole run on the parsed reply (`None` when the request failed):
      the file written, or `None` when nothing is written. */
  function Scrape(reply: Option<Json>, now: string): Option<Saved> {
    if reply.None? || !reply.value.JObj? then None
    else match Iterate(GetOr(reply.value.fields, "stat_status_pairs", JArr([])))
      case None => None
      case Some(items) =>
        match Collected(items)
        case None => None
        case Some(problems) =>
          if problems == [] then None
          else match SortById(problems)
            case None => None
            case Some(sorted) => Some(Saved(|sorted|, now, sorted))
  }

  /** `scrape_leetcode`. */
  method ScrapeLeetcode(reply: Option<Json>, now: string) returns (out: Option<Saved>)
    ensures out == Scrape(reply, now)
  {
    if reply.None? || !reply.value.JObj? {
      return None;
    }
    var pairs := Iterate(GetOr(reply.value.fields, "stat_status_pairs", JArr([])));
    if pairs.None? {
      return None;
    }
    var problems := CollectProblems(pairs.value);
    if problems.None? || problems.value == [] {
      return None;
    }
    var sorted := SortById(problems.value);
    if sorted.None? {
      return None;
    }
    out := Some(Saved(|sorted.value|, now, sorted.value));
  }

  /** A written file is never empty, counts its records, and holds the
      collected records sorted ascending by id (a permutation of them). */
  lemma ScrapeSpec(reply: Option<Json>, now: string)
    ensures Scrape(reply, now).Some? ==>
              var out := Scrape(reply, now).value;
              var items := Iterate(GetOr(reply.value.fields, "stat_status_pairs", JArr([]))).value;
              out.problems != [] && out.totalProblems == |out.problems| && out.lastUpdated == now
              && SortedBy(out.problems, IdKey)
              && multiset(out.problems) == multiset(Collected(items).value)
  {
    if Scrape(reply, now).Some? {
      var items := Iterate(GetOr(reply.value.fields, "stat_status_pairs", JArr([]))).value;
      var problems := Collected(items).value;
      SortSorted(problems, IdKey);
    }
  }
}
