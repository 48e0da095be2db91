/** The Codeforces scraper: the rating bands of `get_difficulty` and the
    record loop of `scrape_codeforces_problems`, over the parsed reply of
    the `problemset.problems` API call. */
module Codeforces {
  import opened Wrappers
  import opened Text
  import opened JsonValue
  import opened Numbering

  // ------------------------------------------------------ rating bands

  /** The upper ends of the bands, each belonging to its own band. */
  const Thresholds: seq<int> := [1000, 1300, 1600, 1900, 2200, 2500]

  /** The band labels from easiest to hardest. */
  const BandLabels: seq<string> := ["Beginner", "Easy", "Lower-Mid", "Mid-Level", "Upper-Mid", "Hard", "Very Hard"]

  /** The label of an integer rating. */
  function Band(points: int): (name: string)
    ensures name in BandLabels
  {
    if points <= 1000 then "Beginner"
    else if points <= 1300 then "Easy"
    else if points <= 1600 then "Lower-Mid"
    else if points <= 1900 then "Mid-Level"
    else if points <= 2200 then "Upper-Mid"
    else if points <= 2500 then "Hard"
    else "Very Hard"
  }

  /** `get_difficulty`: a missing rating and one `int()` rejects both give
      `Mid-Level`; otherwise the band of the integer. */
  function GetDifficulty(points: Json): (name: string)
    ensures name in BandLabels
    ensures points.JNull? ==> name == "Mid-Level"
    ensures points.JNum? ==> name == Band(points.n)
  {
    if points.JNull? then "Mid-Level"
    else match IntOf(points)
      case None => "Mid-Level"
      case Some(n) => Band(n)
  }

  /** Every value `int()` rejects falls into the `except` branch and gives
      `Mid-Level`; every value it accepts (an integer, a boolean, a string
      holding a signed decimal) gives the band of that integer. */
  lemma GetDifficultySpec(points: Json)
    ensures IntOf(points).None? ==> GetDifficulty(points) == "Mid-Level"
    ensures IntOf(points).Some? ==> GetDifficulty(points) == Band(IntOf(points).value)
    ensures points.JBool? ==> GetDifficulty(points) == Band(if points.b then 1 else 0)
    ensures points.JStr? && SignedDigits(Strip(points.s)).Some?
            ==> GetDifficulty(points) == Band(SignedDigits(Strip(points.s)).value)
  {
  }

  /** How many thresholds lie strictly below `n`. */
  function CountBelow(t: seq<int>, n: int): (c: nat)
    ensures c <= |t|
  {
    if t == [] then 0 else (if t[0] < n then 1 else 0) + CountBelow(t[1..], n)
  }

  /** The position of a label in `BandLabels`. */
  function Rank(name: string): (r: nat)
    requires name in BandLabels
    ensures r < |BandLabels| && BandLabels[r] == name
  {
    if name == "Beginner" then 0
    else if name == "Easy" then 1
    else if name == "Lower-Mid" then 2
    else if name == "Mid-Level" then 3
    else if name == "Upper-Mid" then 4
    else if name == "Hard" then 5
    else 6
  }

  /** The if-chain is the threshold table: the band of `n` is the label
      after as many thresholds as lie below `n`, so each threshold value
      belongs to the lower band. */
  lemma BandIsThresholdTable(n: int)
    ensures Band(n) == BandLabels[CountBelow(Thresholds, n)]
  {
    var t := Thresholds;
    assert CountBelow(t[6..], n) == 0;
    assert CountBelow(t[5..], n) == if 2500 < n then 1 else 0;
    assert CountBelow(t[4..], n) == (if 2200 < n then 1 else 0) + CountBelow(t[5..], n);
    assert CountBelow(t[3..], n) == (if 1900 < n then 1 else 0) + CountBelow(t[4..], n);
    assert CountBelow(t[2..], n) == (if 1600 < n then 1 else 0) + CountBelow(t[3..], n);
    assert CountBelow(t[1..], n) == (if 1300 < n then 1 else 0) + CountBelow(t[2..], n);
    assert CountBelow(t, n) == (if 1000 < n then 1 else 0) + CountBelow(t[1..], n);
  }

  /** More thresholds lie below a larger rating. */
  lemma {:induction false} CountBelowMonotone(t: seq<int>, a: int, b: int)
    requires a <= b
    ensures CountBelow(t, a) <= CountBelow(t, b)
  {
    if t != [] {
      CountBelowMonotone(t[1..], a, b);
    }
  }

  /** A higher rating never gets an easier label. */
  lemma BandMonotone(a: int, b: int)
    requires a <= b
    ensures Rank(Band(a)) <= Rank(Band(b))
  {
    BandIsThresholdTable(a);
    BandIsThresholdTable(b);
    CountBelowMonotone(Thresholds, a, b);
    LabelsDistinct();
  }

  lemma LabelsDistinct()
    ensures forall i, j :: 0 <= i < j < |BandLabels| ==> BandLabels[i] != BandLabels[j]
  {
  }

  /** The rating range of each label: above `Lower(k)` (when `k > 0`) and
      at most `Upper(k)` (when `k < 6`). */
  predicate InBandRange(k: nat, points: int)
    requires k < |BandLabels|
  {
    (k == 0 || Thresholds[k - 1] < points) && (k == |Thresholds| || points <= Thresholds[k])
  }

  /** A rating has label `k` exactly when it lies in range `k`. */
  lemma BandRanges(k: nat, points: int)
    requires k < |BandLabels|
    ensures Band(points) == BandLabels[k] <==> InBandRange(k, points)
  {
    LabelsDistinct();
  }

  // ------------------------------------------------------ records

  const ProblemUrlPrefix: string := "https://codeforces.com/problemset/problem/"

  /** One output record; the values copied from the reply stay JSON
      values (`None` when the key is absent). */
  datatype CfProblem = CfProblem(
    id: int, title: Json, difficulty: string, url: string, slug: string,
    tags: Json, solvedCount: Json, points: Json, contestId: Json, index: Json, source: string)

  /** The record built from a problem dict and its statistics dict. */
  function MakeRecord(id: int, problem: seq<(string, Json)>, stats: seq<(string, Json)>): CfProblem
  {
    var contestId := GetOr(problem, "contestId", JNull);
    var index := GetOr(problem, "index", JNull);
    var points := GetOr(problem, "rating", JNull);
    CfProblem(id, GetOr(problem, "name", JNull), GetDifficulty(points),
              ProblemUrlPrefix + Str(contestId) + "/" + Str(index), Str(contestId) + Str(index),
              GetOr(problem, "tags", JArr([])), GetOr(stats, "solvedCount", JNum(0)), points, contestId, index,
              "codeforces")
  }

  /** What a record holds: the URL and slug are built from the contest id
      and the problem index, the difficulty is the band of the rating, the
      title and rating are `None` when absent, tags default to `[]` and the
      solved count to 0, present values are copied as they are, and the
      source is "codeforces". */
  lemma MakeRecordSpec(id: int, problem: seq<(string, Json)>, stats: seq<(string, Json)>)
    ensures var r := MakeRecord(id, problem, stats);
      && r.id == id && r.title == GetOr(problem, "name", JNull)
      && r.url == ProblemUrlPrefix + Str(r.contestId) + "/" + Str(r.index)
      && r.slug == Str(r.contestId) + Str(r.index)
      && r.difficulty == GetDifficulty(r.points)
      && r.contestId == GetOr(problem, "contestId", JNull) && r.index == GetOr(problem, "index", JNull)
      && r.points == GetOr(problem, "rating", JNull) && r.source == "codeforces"
      && (!HasKey(problem, "name") ==> r.title == JNull)
      && (!HasKey(problem, "rating") ==> r.points == JNull && r.difficulty == "Mid-Level")
      && (!HasKey(problem, "tags") ==> r.tags == JArr([]))
      && (HasKey(problem, "tags") ==> Some(r.tags) == Get(problem, "tags"))
      && (!HasKey(stats, "solvedCount") ==> r.solvedCount == JNum(0))
      && (HasKey(stats, "solvedCount") ==> Some(r.solvedCount) == Get(stats, "solvedCount"))
  {
  }

  function Min(a: int, b: int): int { if a < b then a else b }

  /** `zip(problems, stats)`: the pairs up to the shorter list. */
  function Zip(problems: seq<Json>, stats: seq<Json>): (r: seq<(Json, Json)>)
    ensures |r| == Min(|problems|, |stats|)
    ensures forall i :: 0 <= i < |r| ==> r[i] == (problems[i], stats[i])
  {
    seq(Min(|problems|, |stats|), i requires 0 <= i < Min(|problems|, |stats|) => (problems[i], stats[i]))
  }

  /** A pair is used only when both sides are dicts: on anything else
      `.get` raises and the pair is skipped without using an id. */
  predicate BothDicts(pair: (Json, Json)) {
    pair.0.JObj? && pair.1.JObj?
  }

  function FieldsOf(j: Json): seq<(string, Json)> {
    if j.JObj? then j.fields else []
  }

  function RecordOf(id: int, pair: (Json, Json)): CfProblem {
    MakeRecord(id, FieldsOf(pair.0), FieldsOf(pair.1))
  }

  /** The records of the loop over the zip. */
  function Built(problems: seq<Json>, stats: seq<Json>): seq<CfProblem> {
    KeepAndNumber(Zip(problems, stats), BothDicts, RecordOf, 1)
  }

  /** The records are the dict pairs of the zip, in zip order, numbered
      1, 2, 3, ...: ids do not come from the reply and there are no more
      records than the shorter list has entries. */
  lemma BuiltSpec(problems: seq<Json>, stats: seq<Json>)
    ensures Built(problems, stats) == NumberFrom(Filter(Zip(problems, stats), BothDicts), 1, RecordOf)
    ensures |Built(problems, stats)| <= |problems| && |Built(problems, stats)| <= |stats|
    ensures forall k :: 0 <= k < |Built(problems, stats)| ==> Built(problems, stats)[k].id == k + 1
  {
    KeepAndNumberSpec(Zip(problems, stats), BothDicts, RecordOf, 1);
  }

  /** Each record is built from a pair of dicts at one position of the
      zip. */
  lemma BuiltFromDicts(problems: seq<Json>, stats: seq<Json>, k: nat)
    requires k < |Built(problems, stats)|
    ensures exists i :: 0 <= i < |problems| && i < |stats| && problems[i].JObj? && stats[i].JObj?
                        && Built(problems, stats)[k] == MakeRecord(k + 1, problems[i].fields, stats[i].fields)
  {
    var zip := Zip(problems, stats);
    BuiltSpec(problems, stats);
    FilterSpec(zip, BothDicts);
    var kept := Filter(zip, BothDicts);
    var pair := kept[k];
    assert pair in zip && BothDicts(pair);
    var i :| 0 <= i < |zip| && zip[i] == pair;
    assert Built(problems, stats)[k] == RecordOf(k + 1, pair);
    assert problems[i] == pair.0 && stats[i] == pair.1;
  }

  /** One pass of the loop: the pair at `i` adds the next numbered record
      exactly when both sides are dicts. */
  lemma {:induction false} BuildStep(problems: seq<Json>, stats: seq<Json>, zip: seq<(Json, Json)>, i: int)
    requires zip == Zip(problems, stats) && 0 <= i < |zip|
    ensures var prev := KeepAndNumber(zip[..i], BothDicts, RecordOf, 1);
            KeepAndNumber(zip[..i + 1], BothDicts, RecordOf, 1)
            == if problems[i].JObj? && stats[i].JObj?
               then prev + [MakeRecord(|prev| + 1, problems[i].fields, stats[i].fields)]
               else prev
  {
    KeepAndNumberSnoc(zip[..i], zip[i], BothDicts, RecordOf, 1);
    assert zip[..i + 1] == zip[..i] + [zip[i]];
    assert zip[i] == (problems[i], stats[i]);
  }

  /** The record loop of `scrape_codeforces_problems` over the zip. */
  method BuildRecords(problems: seq<Json>, stats: seq<Json>) returns (records: seq<CfProblem>)
    ensures records == Built(problems, stats)
  {
    records := [];
    var problemId := 1;
    ghost var zip := Zip(problems, stats);
    var n := Min(|problems|, |stats|);
    for i := 0 to n
      invariant records == KeepAndNumber(zip[..i], BothDicts, RecordOf, 1)
      invariant problemId == |records| + 1
    {
      BuildStep(problems, stats, zip, i);
      if problems[i].JObj? && stats[i].JObj? {
        records := records + [MakeRecord(problemId, problems[i].fields, stats[i].fields)];
        problemId := problemId + 1;
      }
    }
    assert zip[..|zip|] == zip;
  }

  // ------------------------------------------------------ the script

  datatype Saved = Saved(totalProblems: int, lastUpdated: string, problems: seq<CfProblem>)

  /** The two lists zipped by the loop: `data["result"]["problems"]` and
      `data["result"]["problemStatistics"]`; `None` when a lookup or the
      iteration raises. */
  function ResultLists(data: seq<(string, Json)>): (r: Option<(seq<Json>, seq<Json>)>)
  {
    match Get(data, "result")
    case Some(JObj(result)) =>
      (match (Get(result, "problems"), Get(result, "problemStatistics"))
       case (Some(p), Some(s)) =>
         (match (Iterate(p), Iterate(s))
          case (Some(ps), Some(ss)) => Some((ps, ss))
          case _ => None)
       case _ => None)
    case _ => None
  }

  /** The whole run on the parsed reply (`None` when the request failed):
      the file written, or `None` when the script returns or stops before
      writing; `now` is the timestamp. */
  function Scrape(reply: Option<Json>, now: string): (out: Option<Saved>)
  {
    if reply.None? || !reply.value.JObj? then None
    else
      var data := reply.value.fields;
      if Get(data, "status") != Some(JStr("OK")) then None
      else match ResultLists(data)
        case None => None
        case Some((ps, ss)) =>
          var records := Built(ps, ss);
          Some(Saved(|records|, now, records))
  }

  /** `scrape_codeforces_problems`. */
  method ScrapeCodeforcesProblems(reply: Option<Json>, now: string) returns (out: Option<Saved>)
    ensures out == Scrape(reply, now)
  {
    if reply.None? || !reply.value.JObj? {
      return None;
    }
    var data := reply.value.fields;
    if Get(data, "status") != Some(JStr("OK")) {
      return None;
    }
    var lists := ResultLists(data);
    if lists.None? {
      return None;
    }
    var (ps, ss) := lists.value;
    var records := BuildRecords(ps, ss);
    out := Some(Saved(|records|, now, records));
  }

  /** Nothing is written unless the fetch worked and the status is `OK`;
      a written file counts its records, which number 1..k, come from
      dict pairs only and are no more than the shorter list. */
  lemma ScrapeSpec(reply: Option<Json>, now: string)
    ensures Scrape(reply, now).Some? ==>
              reply.Some? && reply.value.JObj? && Get(reply.value.fields, "status") == Some(JStr("OK"))
              && ResultLists(reply.value.fields).Some?
    ensures Scrape(reply, now).Some? ==>
              var out := Scrape(reply, now).value;
              var (ps, ss) := ResultLists(reply.value.fields).value;
              out.totalProblems == |out.problems| && out.lastUpdated == now
              && out.problems == Built(ps, ss)
  {
  }
}
