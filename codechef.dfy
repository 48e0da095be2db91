/** The CodeChef scraper: four list endpoints, each answering with a
    loosely shaped JSON payload, are turned into uniform problem records;
    a static list of real problems tops the result up when fewer than 50
    records were collected, and the records are saved sorted by id inside
    a metadata envelope.  The HTTP requests are inputs: one optional
    payload per endpoint, `None` standing for a failed request, a status
    other than 200 or a body that does not parse. */
module Codechef {
  import opened Wrappers
  import opened Text
  import opened JsonValue
  import opened Sorting

  const ProblemsUrl: string := "https://www.codechef.com/problems/"

  /** The list endpoints in the order they are queried, each with the
      difficulty label its problems receive. */
  const Endpoints: seq<(string, string)> := [
    ("https://www.codechef.com/api/list/problems/school", "Beginner"),
    ("https://www.codechef.com/api/list/problems/easy", "Easy"),
    ("https://www.codechef.com/api/list/problems/medium", "Medium"),
    ("https://www.codechef.com/api/list/problems/hard", "Hard")
  ]

  /** Keys probed, in this order, for the problem list of a dict payload. */
  const ListKeys: seq<string> := ["problems", "result", "data", "list"]
  /** Keys whose presence makes a dict entry look like a problem. */
  const ShapeKeys: seq<string> := ["name", "title", "problem_name"]
  /** Keys read, in this order, for a problem's code and its name. */
  const CodeKeys: seq<string> := ["code", "problem_code", "problemCode", "slug"]
  const NameKeys: seq<string> := ["name", "title", "problem_name", "problemName"]

  /** Live problems kept per difficulty label. */
  const PerLabelCap: int := 50
  /** Fewer live problems than this bring in the fallback list. */
  const FallbackThreshold: int := 50

  datatype Problem = Problem(id: int, code: string, title: string, difficulty: string, url: string,
                             tags: seq<string>, acceptanceRate: int, submissions: int, source: string)

  // ---------------------------------------------------------------- tags

  /** The keyword groups of `get_tags_from_name`, in the order they are
      tested, each with the tag it contributes. */
  function TagGroups(): seq<(seq<string>, string)> {
    [
    (["sort", "order"], "sorting"),
    (["array", "list"], "arrays"),
    (["string", "text"], "strings"),
    (["tree", "graph"], "graph theory"),
    (["number", "digit", "math"], "mathematics"),
    (["search", "find"], "searching"),
    (["dynamic", "dp"], "dynamic programming"),
    (["greedy"], "greedy")
    ]
  }

  const DefaultTag: string := "implementation"

  /** Some keyword of the group occurs in `s`. */
  predicate AnyKeyword(words: seq<string>, s: string) {
    exists k :: 0 <= k < |words| && Contains(s, words[k])
  }

  /** The tags of the groups with a keyword in `s`, in group order. */
  function MatchedTags(groups: seq<(seq<string>, string)>, s: string): (r: seq<string>)
    ensures |r| <= |groups|
  {
    if groups == [] then []
    else (if AnyKeyword(groups[0].0, s) then [groups[0].1] else []) + MatchedTags(groups[1..], s)
  }

  /** `get_tags_from_name`: one tag per matching keyword group, tested on
      the lower-cased name, or `implementation` when none matches. */
  function TagsFromName(name: string): (tags: seq<string>)
    ensures |tags| >= 1
  {
    var t := MatchedTags(TagGroups(), Lower(name));
    if t == [] then [DefaultTag] else t
  }

  ghost predicate NoDuplicates<T>(s: seq<T>) {
    forall i, j :: 0 <= i < j < |s| ==> s[i] != s[j]
  }

  /** The tags of distinct groups differ. */
  ghost predicate DistinctTags(groups: seq<(seq<string>, string)>) {
    forall i, j :: 0 <= i < j < |groups| ==> groups[i].1 != groups[j].1
  }

  /** A tag is produced exactly when one of the groups carrying it matches,
      and with distinct group tags nothing is produced twice. */
  lemma {:induction false} MatchedTagsSpec(groups: seq<(seq<string>, string)>, s: string)
    ensures forall t :: t in MatchedTags(groups, s) <==>
              exists g :: 0 <= g < |groups| && groups[g].1 == t && AnyKeyword(groups[g].0, s)
    ensures DistinctTags(groups) ==> NoDuplicates(MatchedTags(groups, s))
  {
    if groups != [] {
      var rest := MatchedTags(groups[1..], s);
      MatchedTagsSpec(groups[1..], s);
      forall t
        ensures t in MatchedTags(groups, s) <==>
                exists g :: 0 <= g < |groups| && groups[g].1 == t && AnyKeyword(groups[g].0, s)
      {
        if exists g :: 0 <= g < |groups| && groups[g].1 == t && AnyKeyword(groups[g].0, s) {
          var g :| 0 <= g < |groups| && groups[g].1 == t && AnyKeyword(groups[g].0, s);
          if g > 0 {
            assert groups[1..][g - 1] == groups[g];
          }
        }
        if t in rest {
          var g :| 0 <= g < |groups[1..]| && groups[1..][g].1 == t && AnyKeyword(groups[1..][g].0, s);
          assert groups[g + 1] == groups[1..][g];
        }
      }
      if DistinctTags(groups) && AnyKeyword(groups[0].0, s) {
        assert DistinctTags(groups[1..]) by {
          forall i, j | 0 <= i < j < |groups[1..]| ensures groups[1..][i].1 != groups[1..][j].1 {
            assert groups[1..][i] == groups[i + 1] && groups[1..][j] == groups[j + 1];
          }
        }
        assert groups[0].1 !in rest by {
          forall g | 0 <= g < |groups[1..]| ensures groups[1..][g].1 != groups[0].1 {
            assert groups[1..][g] == groups[g + 1];
          }
        }
        assert NoDuplicates([groups[0].1] + rest) by {
          forall i, j | 0 <= i < j < |rest| + 1 ensures ([groups[0].1] + rest)[i] != ([groups[0].1] + rest)[j] {
            if i == 0 {
              assert rest[j - 1] in rest;
            }
          }
        }
      } else if DistinctTags(groups) {
        assert DistinctTags(groups[1..]) by {
          forall i, j | 0 <= i < j < |groups[1..]| ensures groups[1..][i].1 != groups[1..][j].1 {
            assert groups[1..][i] == groups[i + 1] && groups[1..][j] == groups[j + 1];
          }
        }
      }
    }
  }

  /** The eight group tags are distinct and none of them is the default. */
  lemma TagGroupsDistinct()
    ensures DistinctTags(TagGroups())
    ensures forall g :: 0 <= g < |TagGroups()| ==> TagGroups()[g].1 != DefaultTag
  {
  }

  /** What `get_tags_from_name` promises: at most one tag per group, so at
      most eight, none repeated; a group's tag is present exactly when one
      of its keywords occurs in the lower-cased name; and the result is
      `["implementation"]` exactly when no group matches. */
  lemma {:induction false} TagsFromNameSpec(name: string)
    ensures |TagsFromName(name)| <= |TagGroups()| && NoDuplicates(TagsFromName(name))
    ensures forall g :: 0 <= g < |TagGroups()| ==>
              (TagGroups()[g].1 in TagsFromName(name) <==> AnyKeyword(TagGroups()[g].0, Lower(name)))
    ensures TagsFromName(name) == [DefaultTag] <==>
              forall g :: 0 <= g < |TagGroups()| ==> !AnyKeyword(TagGroups()[g].0, Lower(name))
  {
    var s := Lower(name);
    TagGroupsDistinct();
    MatchedTagsSpec(TagGroups(), s);
    var t := MatchedTags(TagGroups(), s);
    forall g | 0 <= g < |TagGroups()|
      ensures TagGroups()[g].1 in TagsFromName(name) <==> AnyKeyword(TagGroups()[g].0, s)
    {
      if TagGroups()[g].1 in t {
        var h :| 0 <= h < |TagGroups()| && TagGroups()[h].1 == TagGroups()[g].1 && AnyKeyword(TagGroups()[h].0, s);
        assert h == g;
      }
    }
    if t != [] {
      assert t[0] in t;
      assert t != [DefaultTag];
    }
  }

  // ------------------------------------------------- locating the list

  /** The value of the first key of `keys` that `fields` holds. */
  function FirstPresent(fields: seq<(string, Json)>, keys: seq<string>): (r: Option<Json>)
    ensures r.None? <==> forall k :: 0 <= k < |keys| ==> !HasKey(fields, keys[k])
  {
    if keys == [] then None
    else if HasKey(fields, keys[0]) then Get(fields, keys[0])
    else
      var r := FirstPresent(fields, keys[1..]);
      assert forall k :: 1 <= k < |keys| ==> keys[k] == keys[1..][k - 1];
      r
  }

  /** `FirstPresent` gives the value of the first key in list order that
      the dict holds. */
  lemma {:induction false} FirstPresentSpec(fields: seq<(string, Json)>, keys: seq<string>, k: int)
    requires 0 <= k < |keys| && HasKey(fields, keys[k])
    requires forall j :: 0 <= j < k ==> !HasKey(fields, keys[j])
    ensures FirstPresent(fields, keys) == Get(fields, keys[k])
  {
    if k > 0 {
      assert !HasKey(fields, keys[0]);
      assert keys[1..][k - 1] == keys[k];
      assert forall j :: 0 <= j < k - 1 ==> keys[1..][j] == keys[j + 1];
      FirstPresentSpec(fields, keys[1..], k - 1);
    }
  }

  /** A dict entry whose value is itself a dict with a name-like key. */
  predicate ProblemShaped(v: Json) {
    v.JObj? && exists k :: 0 <= k < |ShapeKeys| && HasKey(v.fields, ShapeKeys[k])
  }

  /** The problem-shaped entries of a dict, each with its key written into
      it as `code`, in dict order. */
  function KeyedEntries(fields: seq<(string, Json)>): (r: seq<Json>)
    ensures |r| <= |fields|
  {
    if fields == [] then []
    else
      var last := fields[|fields| - 1];
      KeyedEntries(fields[..|fields| - 1])
      + (if ProblemShaped(last.1) then [JObj(Set(last.1.fields, "code", JStr(last.0)))] else [])
  }

  /** The entries the scraper walks for one payload.  A list is used as it
      is.  A dict yields the value of the first list key it holds; when that
      value is falsy (or no list key is present) and the dict is not empty,
      its problem-shaped entries are collected instead.  A falsy value that
      is not a list makes that collection raise, and iterating a value that
      is not a list yields no dict: such an endpoint contributes nothing. */
  function ProblemList(data: Json): (r: seq<Json>)
  {
    match data
    case JArr(items) => items
    case JObj(fields) =>
      var pl := FirstPresent(fields, ListKeys).GetOr(JArr([]));
      if !Truthy(pl) && fields != [] then (if pl.JArr? then KeyedEntries(fields) else [])
      else if pl.JArr? then pl.items
      else []
    case _ => []
  }

  /** The walk over a dict's entries that writes each key into the
      problem-shaped values. */
  method ScanEntries(fields: seq<(string, Json)>) returns (found: seq<Json>)
    ensures found == KeyedEntries(fields)
  {
    found := [];
    var i := 0;
    while i < |fields|
      invariant 0 <= i <= |fields|
      invariant found == KeyedEntries(fields[..i])
    {
      var (key, value) := fields[i];
      assert fields[..i + 1][..i] == fields[..i];
      if ProblemShaped(value) {
        found := found + [JObj(Set(value.fields, "code", JStr(key)))];
      }
      i := i + 1;
    }
    assert fields[..i] == fields;
  }

  /** Locating the problem list inside one endpoint's payload. */
  method LocateProblemList(data: Json) returns (problemList: seq<Json>)
    ensures problemList == ProblemList(data)
  {
    problemList := [];
    if data.JArr? {
      problemList := data.items;
    } else if data.JObj? {
      var fields := data.fields;
      var found: Option<Json> := None;
      var k := 0;
      while k < |ListKeys|
        invariant 0 <= k <= |ListKeys|
        invariant FirstPresent(fields, ListKeys) == FirstPresent(fields, ListKeys[k..])
      {
        if HasKey(fields, ListKeys[k]) {
          found := Get(fields, ListKeys[k]);
          break;
        }
        assert ListKeys[k..][1..] == ListKeys[k + 1..];
        k := k + 1;
      }
      assert found == FirstPresent(fields, ListKeys) by {
        if k == |ListKeys| {
          assert ListKeys[k..] == [];
        }
      }
      var pl := found.GetOr(JArr([]));
      if !Truthy(pl) && fields != [] {
        var scanned := ScanEntries(fields);
        if pl.JArr? {
          problemList := scanned;
        }
      } else if pl.JArr? {
        problemList := pl.items;
      }
    }
  }

  /** A list payload is walked as it is. */
  lemma {:induction false} ListPayloadAsIs(items: seq<Json>)
    ensures ProblemList(JArr(items)) == items
  {
  }

  /** A dict payload holding a non-empty list under the first list key it
      has yields that list, whatever else it holds. */
  lemma {:induction false} FirstListKeyWins(fields: seq<(string, Json)>, k: nat, items: seq<Json>)
    requires k < |ListKeys| && forall j :: 0 <= j < k ==> !HasKey(fields, ListKeys[j])
    requires Get(fields, ListKeys[k]) == Some(JArr(items)) && items != []
    ensures ProblemList(JObj(fields)) == items
  {
    var ks := ListKeys;
    assert FirstPresent(fields, ks) == FirstPresent(fields, ks[k..]) by {
      var j := 0;
      while j < k
        invariant 0 <= j <= k
        invariant FirstPresent(fields, ks) == FirstPresent(fields, ks[j..])
      {
        assert ks[j..][1..] == ks[j + 1..];
        j := j + 1;
      }
    }
  }

  /** `x` is a problem-shaped value of `fields` with its key written in
      as `code`. */
  ghost predicate KeyedFrom(fields: seq<(string, Json)>, x: Json) {
    exists i :: 0 <= i < |fields| && ProblemShaped(fields[i].1)
                && x == JObj(Set(fields[i].1.fields, "code", JStr(fields[i].0)))
  }

  /** A non-empty dict payload without any list key yields its
      problem-shaped entries, each carrying its key as `code`. */
  lemma {:induction false} KeyedFallback(fields: seq<(string, Json)>)
    requires fields != [] && forall k :: 0 <= k < |ListKeys| ==> !HasKey(fields, ListKeys[k])
    ensures ProblemList(JObj(fields)) == KeyedEntries(fields)
    ensures forall j :: 0 <= j < |KeyedEntries(fields)| ==> KeyedFrom(fields, KeyedEntries(fields)[j])
  {
    KeyedEntriesFrom(fields);
  }

  lemma {:induction false} KeyedEntriesFrom(fields: seq<(string, Json)>)
    ensures forall j :: 0 <= j < |KeyedEntries(fields)| ==> KeyedFrom(fields, KeyedEntries(fields)[j])
  {
    if fields != [] {
      var init := fields[..|fields| - 1];
      var all := KeyedEntries(fields);
      var n := |fields| - 1;
      KeyedEntriesFrom(init);
      forall j | 0 <= j < |all| ensures KeyedFrom(fields, all[j]) {
        if j < |KeyedEntries(init)| {
          assert all[j] == KeyedEntries(init)[j];
          var i :| 0 <= i < |init| && ProblemShaped(init[i].1)
                   && all[j] == JObj(Set(init[i].1.fields, "code", JStr(init[i].0)));
          assert init[i] == fields[i];
        } else {
          assert ProblemShaped(fields[n].1);
          assert all[j] == JObj(Set(fields[n].1.fields, "code", JStr(fields[n].0)));
        }
      }
    }
  }

  // ------------------------------------------------ one record at a time

  /** The cleaned code and name of a list entry, or `None` when the entry
      is skipped: it is not a dict, its code or name is missing or falsy,
      the stripped name is shorter than 3, or the name equals the code
      ignoring case. */
  function Candidate(item: Json): (r: Option<(string, string)>)
  {
    if !item.JObj? then None
    else
      var code := FirstTruthy(item.fields, CodeKeys);
      var name := FirstTruthy(item.fields, NameKeys);
      if code.None? || name.None? then None
      else
        var c := Upper(Strip(Str(code.value)));
        var n := Strip(Str(name.value));
        if |n| < 3 || Lower(n) == Lower(c) then None else Some((c, n))
  }

  /** An accepted entry is a dict with a truthy code and name; its code
      holds no lower-case letter, its name has at least 3 characters, no
      whitespace at either end, and differs from the code ignoring case. */
  lemma {:induction false} CandidateSpec(item: Json)
    ensures Candidate(item).Some? ==> item.JObj? && FirstTruthy(item.fields, CodeKeys).Some?
                                      && FirstTruthy(item.fields, NameKeys).Some?
    ensures Candidate(item).Some? ==>
              var (c, n) := Candidate(item).value;
              |n| >= 3 && Lower(n) != Lower(c) && !IsPySpace(n[0]) && !IsPySpace(n[|n| - 1])
              && forall i :: 0 <= i < |c| ==> !('a' <= c[i] <= 'z')
  {
    if Candidate(item).Some? {
      var stripped := Strip(Str(FirstTruthy(item.fields, CodeKeys).value));
      var c := Upper(stripped);
      var n := Strip(Str(FirstTruthy(item.fields, NameKeys).value));
      assert Candidate(item).value == (c, n);
      forall i | 0 <= i < |c| ensures !('a' <= c[i] <= 'z') {
        assert c[i] == UpperChar(stripped[i]);
      }
    }
  }

  /** A dict whose first truthy code and name are strings is accepted
      exactly when its stripped name has at least 3 characters and differs
      from its stripped code ignoring case. */
  lemma {:induction false} CandidateOfStrings(fields: seq<(string, Json)>, code: string, name: string)
    requires FirstTruthy(fields, CodeKeys) == Some(JStr(code))
    requires FirstTruthy(fields, NameKeys) == Some(JStr(name))
    ensures Candidate(JObj(fields)).Some? <==> |Strip(name)| >= 3 && Lower(Strip(name)) != Lower(Strip(code))
    ensures Candidate(JObj(fields)).Some? ==> Candidate(JObj(fields)).value == (Upper(Strip(code)), Strip(name))
  {
    CandidateOfObj(fields, code, name);
    LowerOfUpper(Strip(code));
  }

  lemma CandidateOfObj(fields: seq<(string, Json)>, code: string, name: string)
    requires FirstTruthy(fields, CodeKeys) == Some(JStr(code))
    requires FirstTruthy(fields, NameKeys) == Some(JStr(name))
    ensures var c, n := Upper(Strip(code)), Strip(name);
            Candidate(JObj(fields)) == if |n| < 3 || Lower(n) == Lower(c) then None else Some((c, n))
  {
    assert Str(JStr(code)) == code && Str(JStr(name)) == name;
  }

  /** The record for an accepted entry with the given id. */
  function MakeProblem(id: int, code: string, name: string, difficulty: string): (p: Problem)
    ensures p.id == id && p.code == code && p.title == name && p.difficulty == difficulty
    ensures p.url == ProblemsUrl + code && p.source == "codechef"
    ensures p.tags == TagsFromName(name)
    ensures p.acceptanceRate == 60 + id % 40 && 60 <= p.acceptanceRate < 100
    ensures p.submissions == 10000 + id * 1000
  {
    Problem(id, code, name, difficulty, ProblemsUrl + code, TagsFromName(name),
            60 + id % 40, 10000 + id * 1000, "codechef")
  }

  /** How many records carry the difficulty label `category`. */
  function CountLabel(s: seq<Problem>, category: string): (n: nat)
    ensures n <= |s|
  {
    if s == [] then 0
    else CountLabel(s[..|s| - 1], category) + (if s[|s| - 1].difficulty == category then 1 else 0)
  }

  // ------------------------------------------------------ the live pass

  /** The records after walking `items` from index `i` for the endpoint
      with label `category`, starting from `acc`: each accepted entry is appended
      with the next id, and the walk stops as soon as `category` has 50. */
  function CollectFrom(items: seq<Json>, i: nat, category: string, acc: seq<Problem>): (r: seq<Problem>)
    requires i <= |items|
    decreases |items| - i
  {
    if i == |items| then acc
    else match Candidate(items[i])
      case None => CollectFrom(items, i + 1, category, acc)
      case Some((c, n)) =>
        var next := acc + [MakeProblem(|acc| + 1, c, n, category)];
        if CountLabel(next, category) >= PerLabelCap then next else CollectFrom(items, i + 1, category, next)
  }

  /** The records after the endpoints from `e` on, starting from `acc`. */
  function LiveFrom(responses: seq<Option<Json>>, e: nat, acc: seq<Problem>): (r: seq<Problem>)
    requires |responses| == |Endpoints| && e <= |Endpoints|
    decreases |Endpoints| - e
  {
    if e == |Endpoints| then acc
    else
      var next := if responses[e].Some? then CollectFrom(ProblemList(responses[e].value), 0, Endpoints[e].1, acc) else acc;
      LiveFrom(responses, e + 1, next)
  }

  /** The records collected from the four endpoints. */
  function Live(responses: seq<Option<Json>>): seq<Problem>
    requires |responses| == |Endpoints|
  {
    LiveFrom(responses, 0, [])
  }

  // ---------------------------------------------------------- fallback

  /** The static list of real problems, code and title. */
  function RealProblems(): seq<(string, string)> {
    [
    ("HELLO", "Life, the Universe, and Everything"),
    ("INTEST", "Enormous Input Test"),
    ("HS08TEST", "ATM"),
    ("FLOW001", "Add Two Numbers"),
    ("FLOW002", "Find Remainder"),
    ("FLOW004", "First and Last Digit"),
    ("FLOW006", "Sum of Digits"),
    ("FLOW007", "Reverse The Number"),
    ("FLOW008", "Helping Chef"),
    ("FLOW009", "Total Expenses"),
    ("FLOW010", "ID and Ship"),
    ("FLOW011", "Salary"),
    ("FLOW013", "Valid Triangles"),
    ("FLOW014", "Grade The Steel"),
    ("FLOW016", "GCD and LCM"),
    ("FLOW017", "Second Largest"),
    ("FLOW018", "Smallest Numbers of Notes"),
    ("FCTRL", "Factorial"),
    ("COINS", "Bytelandian Gold Coins"),
    ("LAPIN", "Lapindromes"),
    ("CNOTE", "Chef and Notebooks"),
    ("VOTERS", "Voters List"),
    ("RECIPE", "Recipe Reconstruction"),
    ("CLEANUP", "Cleaning Up"),
    ("HORSES", "Racing Horses"),
    ("CIELAB", "Ciel and A-B Problem"),
    ("MAXDIFF", "Maximum Weight Difference"),
    ("CHN15A", "Mutated Minions"),
    ("RAINBOWA", "Rainbow Array"),
    ("LADDU", "LADDU"),
    ("CHEFSTUD", "Chef and Study"),
    ("BENDSP", "Bending Spoons"),
    ("OJUMPS", "Observing the Jumps"),
    ("SALARY", "Little Elephant and Salary"),
    ("RRCOPY", "Copy-paste"),
    ("ANUDTC", "Anuradha and Distance"),
    ("CHEFDETE", "Chef and Detective"),
    ("PRGIFT", "Programmer and the Gift"),
    ("SEGM01", "Bear and Segment 01"),
    ("CHRL4", "Chef and Rainbow Lights"),
    ("KTTABLE", "Kitchen Timetable"),
    ("ADAKING", "Ada King"),
    ("TREEFUN", "Tree Fun"),
    ("GOODSET", "Good Set"),
    ("COMPILER", "Compiler"),
    ("CARDSHUF", "Card Shuffle"),
    ("MEDIAN", "Median"),
    ("DIVSET", "Divisibility Set"),
    ("GRID", "Grid"),
    ("MATHL", "Math is Love"),
    ("PRIME1", "Prime Generator"),
    ("SPOJ", "Small factorials"),
    ("FCTRL2", "Small factorials"),
    ("GCDQ", "GCD and Queries"),
    ("TSORT", "Turbo Sort"),
    ("SUMTRIAN", "Sum of triangles"),
    ("SUBINC", "Subsequence Increment"),
    ("MAXSUB", "Maximum Subsequence"),
    ("PALIN", "The Next Palindrome"),
    ("FASHION", "Fashion Shows"),
    ("CARVANS", "Carvans"),
    ("MARCHA1", "Polo the Penguin and the Marching"),
    ("IPCTRN", "Polo the Penguin and the Test"),
    ("AMSGAME1", "Guess the Number"),
    ("AMSGAME2", "Subtraction Game 2"),
    ("TLG", "The Lead Game"),
    ("LUCKFOUR", "Lucky Four"),
    ("NUMGAME", "Number Game"),
    ("TRICOIN", "Coins and Triangle"),
    ("SMPAIR", "The Smallest Pair"),
    ("HOLES", "Bear and Polynomials"),
    ("CHEFPATH", "Chef and his daily routine"),
    ("MATSUM", "Matrix Summation"),
    ("FLIP", "Chef and Sign Sequences"),
    ("MSTICK", "Chopsticks"),
    ("RESQ", "Restaurant"),
    ("NAME2", "Chef and his Sequence"),
    ("STONES", "Pebbles"),
    ("BUYING2", "Buying Sweets"),
    ("CONFLIP", "Coin Flip"),
    ("PERMUT2", "Ambiguous Permutations"),
    ("CHEFSIGN", "Chef and Sign Sequences"),
    ("TRISQ", "Counting Triangles"),
    ("MGAME", "Mahesh and his Lost Array"),
    ("LECANDY", "Little Elephant and Candies"),
    ("LEPERMUT", "Little Elephant and Permutations"),
    ("MULTHREE", "Multiple of 3"),
    ("SNACKDOWN", "Snackdown Elimination"),
    ("MAXTAX", "Maximise Sum"),
    ("REVERSE", "Reverse Coding"),
    ("CHEFSUM", "Little Chef and Sums"),
    ("COOLING", "Cooling Pies"),
    ("CFRTEST", "Codeforces Rating"),
    ("PHYSICS", "Kinematics"),
    ("CHEFFA", "Chef and Subarrays"),
    ("STRPALIN", "Palindromic substrings"),
    ("STACKS", "Stacks"),
    ("JOHNY", "Uncle Johny"),
    ("DIVIDING", "Dividing Stamps"),
    ("CHEFRUN", "Chef and Running"),
    ("CHEFSTR1", "Chef and String"),
    ("COOK82A", "Chef and Digits"),
    ("COOK82B", "Chef and his Cake"),
    ("MUFFINS3", "Muffins"),
    ("TABLET", "Tablet"),
    ("SNCKYEAR", "Snackdown Year"),
    ("CHEFAPAR", "Chef and Apartment")
    ]
  }

  const FallbackLabels: seq<string> := ["Beginner", "Easy", "Medium", "Hard"]

  /** The fallback record at 0-based position `i`: labels cycle through
      Beginner, Easy, Medium, Hard, and the id is `i + 1` while the
      acceptance rate and submissions are computed from `i`. */
  function FallbackProblem(table: seq<(string, string)>, i: nat): (p: Problem)
    requires i < |table|
  {
    var (code, title) := table[i];
    Problem(i + 1, code, title, FallbackLabels[i % |FallbackLabels|], ProblemsUrl + code, TagsFromName(title),
            60 + i % 40, 10000 + i * 1000, "codechef")
  }

  /** `get_fallback_problems`, over the table `table` of codes and titles
      (`RealProblems()` in the scraper). */
  method GetFallbackProblems(table: seq<(string, string)>) returns (problems: seq<Problem>)
    ensures problems == FallbackProblems(table)
  {
    problems := [];
    for i := 0 to |table|
      invariant |problems| == i
      invariant forall j :: 0 <= j < i ==> problems[j] == FallbackProblem(table, j)
    {
      var (code, title) := table[i];
      var difficulty := FallbackLabels[i % |FallbackLabels|];
      problems := problems + [Problem(i + 1, code, title, difficulty, ProblemsUrl + code, TagsFromName(title),
                                      60 + i % 40, 10000 + i * 1000, "codechef")];
    }
  }

  /** Every fallback record has the difficulty of its position in the cycle,
      id one past its position and the problem page of its code. */
  lemma {:induction false} FallbackShape(table: seq<(string, string)>, i: nat)
    requires i < |table|
    ensures FallbackProblem(table, i).id == i + 1 && FallbackProblem(table, i).code == table[i].0
    ensures FallbackProblem(table, i).difficulty == FallbackLabels[i % 4]
    ensures FallbackProblem(table, i).url == ProblemsUrl + FallbackProblem(table, i).code
    ensures 60 <= FallbackProblem(table, i).acceptanceRate <= 99
  {
  }

  function Codes(s: seq<Problem>): set<string> {
    set p | p in s :: p.code
  }

  /** The fallback records whose code is not in `existing`, renumbered
      from `first` in their order. */
  function Appended(fallback: seq<Problem>, existing: set<string>, first: int): (r: seq<Problem>)
    ensures |r| <= |fallback|
  {
    if fallback == [] then []
    else
      var prev := Appended(fallback[..|fallback| - 1], existing, first);
      var last := fallback[|fallback| - 1];
      if last.code in existing then prev else prev + [last.(id := first + |prev|)]
  }

  /** The fallback step: below the threshold the fallback records with new
      codes are appended to the live ones. */
  function Merge(live: seq<Problem>, table: seq<(string, string)>): seq<Problem> {
    if |live| < FallbackThreshold then
      live + Appended(FallbackProblems(table), Codes(live), |live| + 1)
    else live
  }

  /** The whole of `fetch_codechef_problems`. */
  function Fetch(responses: seq<Option<Json>>, table: seq<(string, string)>): seq<Problem>
    requires |responses| == |Endpoints|
  {
    Merge(Live(responses), table)
  }

  function FallbackProblems(table: seq<(string, string)>): (r: seq<Problem>)
  {
    seq(|table|, i requires 0 <= i < |table| => FallbackProblem(table, i))
  }

  /** `fetch_codechef_problems`, with the payload of each endpoint as an
      input: the live pass over the endpoints, then the fallback merge. */
  method FetchCodechefProblems(responses: seq<Option<Json>>, table: seq<(string, string)>) returns (problems: seq<Problem>)
    requires |responses| == |Endpoints|
    ensures problems == Fetch(responses, table)
  {
    var live := CollectLive(responses);
    problems := MergeFallback(live, table);
  }

  /** The tail of `fetch_codechef_problems`: below 50 live records the
      fallback list is built and merged in. */
  method MergeFallback(live: seq<Problem>, table: seq<(string, string)>) returns (problems: seq<Problem>)
    ensures problems == Merge(live, table)
  {
    problems := live;
    if |problems| < FallbackThreshold {
      var fallbackProblems := GetFallbackProblems(table);
      problems := AddFallback(problems, fallbackProblems);
    }
  }

  /** The loop over the endpoints: each payload's entries are walked in
      turn, the id counter running on across endpoints. */
  method CollectLive(responses: seq<Option<Json>>) returns (problems: seq<Problem>)
    requires |responses| == |Endpoints|
    ensures problems == Live(responses)
  {
    problems := [];
    var problemId := 1;
    for e := 0 to |Endpoints|
      invariant problemId == |problems| + 1
      invariant LiveFrom(responses, e, problems) == Live(responses)
    {
      var difficulty := Endpoints[e].1;
      if responses[e].Some? {
        var problemList := LocateProblemList(responses[e].value);
        problems, problemId := CollectEndpoint(problemList, difficulty, problems, problemId);
      }
    }
  }

  /** The inner loop over one payload's entries: accepted entries are
      appended with the next id, and the walk stops once the label holds
      50 records. */
  method CollectEndpoint(problemList: seq<Json>, difficulty: string, start: seq<Problem>, firstId: int)
      returns (problems: seq<Problem>, problemId: int)
    requires firstId == |start| + 1
    ensures problems == CollectFrom(problemList, 0, difficulty, start)
    ensures problemId == |problems| + 1
  {
    problems, problemId := start, firstId;
    var i := 0;
    while i < |problemList|
      invariant 0 <= i <= |problemList|
      invariant problemId == |problems| + 1
      invariant CollectFrom(problemList, i, difficulty, problems) == CollectFrom(problemList, 0, difficulty, start)
    {
      var candidate := Candidate(problemList[i]);
      if candidate.Some? {
        var (code, name) := candidate.value;
        problems := problems + [MakeProblem(problemId, code, name, difficulty)];
        problemId := problemId + 1;
        if CountLabel(problems, difficulty) >= PerLabelCap {
          return;
        }
      }
      i := i + 1;
    }
  }

  /** The fallback merge: every fallback record whose code is not among
      the live codes is appended, continuing the id sequence. */
  method AddFallback(live: seq<Problem>, fallbackProblems: seq<Problem>) returns (problems: seq<Problem>)
    ensures problems == live + Appended(fallbackProblems, Codes(live), |live| + 1)
  {
    problems := live;
    var problemId := |live| + 1;
    var existingCodes := set p | p in problems :: p.code;
    for i := 0 to |fallbackProblems|
      invariant problemId == |problems| + 1
      invariant problems == live + Appended(fallbackProblems[..i], existingCodes, |live| + 1)
    {
      var prob := fallbackProblems[i];
      assert fallbackProblems[..i + 1][..i] == fallbackProblems[..i];
      if prob.code !in existingCodes {
        problems := problems + [prob.(id := problemId)];
        problemId := problemId + 1;
      }
    }
    assert fallbackProblems[..|fallbackProblems|] == fallbackProblems;
  }

  // ------------------------------------------------ what the pass promises

  /** The shape every live record has: ids count up from 1 in acceptance
      order, the URL is the problem page of the code, the acceptance rate
      and submission count follow from the id, and the title has at least
      three characters. */
  ghost predicate LiveShaped(s: seq<Problem>) {
    forall k :: 0 <= k < |s| ==>
      s[k].id == k + 1 && s[k].url == ProblemsUrl + s[k].code && s[k].source == "codechef"
      && s[k].acceptanceRate == 60 + s[k].id % 40 && s[k].submissions == 10000 + 1000 * s[k].id
      && |s[k].title| >= 3
  }

  lemma {:induction false} CountLabelAppend(s: seq<Problem>, p: Problem, category: string)
    ensures CountLabel(s + [p], category) == CountLabel(s, category) + (if p.difficulty == category then 1 else 0)
  {
    assert (s + [p])[..|s|] == s;
  }

  lemma {:induction false} AppendShaped(acc: seq<Problem>, c: string, n: string, category: string)
    requires LiveShaped(acc) && |n| >= 3
    ensures LiveShaped(acc + [MakeProblem(|acc| + 1, c, n, category)])
  {
    var next := acc + [MakeProblem(|acc| + 1, c, n, category)];
    assert forall k :: 0 <= k < |acc| ==> next[k] == acc[k];
  }

  lemma {:induction false} CountLabelAppendOthers(s: seq<Problem>, p: Problem)
    ensures CountLabel(s + [p], p.difficulty) == CountLabel(s, p.difficulty) + 1
    ensures forall c :: c != p.difficulty ==> CountLabel(s + [p], c) == CountLabel(s, c)
  {
    assert (s + [p])[..|s|] == s;
  }

  /** Walking an endpoint keeps the live shape. */
  lemma {:induction false} CollectFromShaped(items: seq<Json>, i: nat, category: string, acc: seq<Problem>)
    requires i <= |items| && LiveShaped(acc)
    ensures LiveShaped(CollectFrom(items, i, category, acc))
    decreases |items| - i
  {
    if i < |items| && Candidate(items[i]).Some? {
      var (c, n) := Candidate(items[i]).value;
      CandidateSpec(items[i]);
      var next := acc + [MakeProblem(|acc| + 1, c, n, category)];
      AppendShaped(acc, c, n, category);
      if CountLabel(next, category) < PerLabelCap {
        CollectFromShaped(items, i + 1, category, next);
      }
    } else if i < |items| {
      CollectFromShaped(items, i + 1, category, acc);
    }
  }

  /** Walking an endpoint adds only records with its label and never takes
      that label past 50. */
  lemma {:induction false} CollectFromCounts(items: seq<Json>, i: nat, category: string, acc: seq<Problem>)
    requires i <= |items| && CountLabel(acc, category) < PerLabelCap
    ensures CountLabel(CollectFrom(items, i, category, acc), category) <= PerLabelCap
    ensures forall c :: c != category ==> CountLabel(CollectFrom(items, i, category, acc), c) == CountLabel(acc, c)
    decreases |items| - i
  {
    if i < |items| && Candidate(items[i]).Some? {
      var (c, n) := Candidate(items[i]).value;
      var p := MakeProblem(|acc| + 1, c, n, category);
      var next := acc + [p];
      CountLabelAppendOthers(acc, p);
      if CountLabel(next, category) < PerLabelCap {
        CollectFromCounts(items, i + 1, category, next);
      }
    } else if i < |items| {
      CollectFromCounts(items, i + 1, category, acc);
    }
  }

  /** The endpoint labels are distinct. */
  lemma EndpointLabelsDistinct()
    ensures forall a, b :: 0 <= a < b < |Endpoints| ==> Endpoints[a].1 != Endpoints[b].1
  {
  }

  /** Processing the endpoints from `e` on keeps the live shape and caps
      every label at 50, when the labels still to come are unused. */
  lemma {:induction false} LiveFromSpec(responses: seq<Option<Json>>, e: nat, acc: seq<Problem>)
    requires |responses| == |Endpoints| && e <= |Endpoints| && LiveShaped(acc)
    requires forall c :: CountLabel(acc, c) <= PerLabelCap
    requires forall f :: e <= f < |Endpoints| ==> CountLabel(acc, Endpoints[f].1) == 0
    ensures LiveShaped(LiveFrom(responses, e, acc))
    ensures forall c :: CountLabel(LiveFrom(responses, e, acc), c) <= PerLabelCap
    decreases |Endpoints| - e
  {
    if e < |Endpoints| {
      var next := if responses[e].Some? then CollectFrom(ProblemList(responses[e].value), 0, Endpoints[e].1, acc) else acc;
      if responses[e].Some? {
        EndpointStep(ProblemList(responses[e].value), e, acc);
      }
      assert LiveFrom(responses, e, acc) == LiveFrom(responses, e + 1, next);
      LiveFromSpec(responses, e + 1, next);
    }
  }

  /** One endpoint's walk keeps the live shape and the cap, and leaves the
      labels of the later endpoints unused. */
  lemma EndpointStep(items: seq<Json>, e: nat, acc: seq<Problem>)
    requires e < |Endpoints| && LiveShaped(acc)
    requires forall c :: CountLabel(acc, c) <= PerLabelCap
    requires forall f :: e <= f < |Endpoints| ==> CountLabel(acc, Endpoints[f].1) == 0
    ensures var next := CollectFrom(items, 0, Endpoints[e].1, acc);
            LiveShaped(next) && (forall c :: CountLabel(next, c) <= PerLabelCap)
            && forall f :: e < f < |Endpoints| ==> CountLabel(next, Endpoints[f].1) == 0
  {
    var category := Endpoints[e].1;
    CollectFromShaped(items, 0, category, acc);
    CollectFromCounts(items, 0, category, acc);
    EndpointLabelsDistinct();
  }

  /** What the live pass promises: ids are 1, 2, 3, ... in acceptance
      order, each record's URL, acceptance rate (in [60, 99]) and
      submission count follow from its code and id, and no difficulty label
      holds more than 50 records. */
  lemma {:induction false} LiveSpec(responses: seq<Option<Json>>)
    requires |responses| == |Endpoints|
    ensures LiveShaped(Live(responses))
    ensures forall k :: 0 <= k < |Live(responses)| ==> 60 <= Live(responses)[k].acceptanceRate <= 99
    ensures forall c :: CountLabel(Live(responses), c) <= PerLabelCap
  {
    LiveFromSpec(responses, 0, []);
  }

  lemma {:induction false} LiveIds(responses: seq<Option<Json>>)
    requires |responses| == |Endpoints|
    ensures forall k :: 0 <= k < |Live(responses)| ==> Live(responses)[k].id == k + 1
  {
    LiveSpec(responses);
  }

  /** The fallback records whose code is not in `existing`, in order. */
  function NewCodes(fallback: seq<Problem>, existing: set<string>): (r: seq<Problem>)
    ensures |r| <= |fallback|
  {
    if fallback == [] then []
    else
      var last := fallback[|fallback| - 1];
      var prev := NewCodes(fallback[..|fallback| - 1], existing);
      if last.code in existing then prev else prev + [last]
  }

  /** `NewCodes` keeps exactly the fallback records with a code not in
      `existing`. */
  lemma {:induction false} NewCodesSpec(fallback: seq<Problem>, existing: set<string>)
    ensures forall x :: x in NewCodes(fallback, existing) <==> x in fallback && x.code !in existing
  {
    if fallback != [] {
      var init, last := fallback[..|fallback| - 1], fallback[|fallback| - 1];
      NewCodesSpec(init, existing);
      assert fallback == init + [last];
    }
  }

  lemma {:induction false} NewCodesMember(fallback: seq<Problem>, existing: set<string>, x: Problem)
    requires x in NewCodes(fallback, existing)
    ensures x in fallback && x.code !in existing
  {
    NewCodesSpec(fallback, existing);
  }

  /** `s` with ids renumbered from `first`. */
  function Renumber(s: seq<Problem>, first: int): (r: seq<Problem>)
    ensures |r| == |s| && forall k :: 0 <= k < |s| ==> r[k] == s[k].(id := first + k)
  {
    seq(|s|, k requires 0 <= k < |s| => s[k].(id := first + k))
  }

  lemma {:induction false} RenumberSnoc(s: seq<Problem>, last: Problem, first: int)
    ensures Renumber(s + [last], first) == Renumber(s, first) + [last.(id := first + |s|)]
  {
    var whole := Renumber(s, first) + [last.(id := first + |s|)];
    var r := Renumber(s + [last], first);
    forall k | 0 <= k < |r| ensures r[k] == whole[k] {
      if k < |s| {
        assert (s + [last])[k] == s[k];
      }
    }
  }

  /** The merge loop appends exactly the fallback records with new codes,
      in fallback order, numbered on from `first`. */
  lemma {:induction false} AppendedIsRenumberedFilter(fallback: seq<Problem>, existing: set<string>, first: int)
    ensures Appended(fallback, existing, first) == Renumber(NewCodes(fallback, existing), first)
  {
    if fallback != [] {
      var init, last := fallback[..|fallback| - 1], fallback[|fallback| - 1];
      AppendedIsRenumberedFilter(init, existing, first);
      var prev := NewCodes(init, existing);
      if last.code in existing {
        assert NewCodes(fallback, existing) == prev;
        assert Appended(fallback, existing, first) == Appended(init, existing, first);
      } else {
        assert NewCodes(fallback, existing) == prev + [last];
        var a := Appended(init, existing, first);
        assert Appended(fallback, existing, first) == a + [last.(id := first + |a|)];
        RenumberSnoc(prev, last, first);
      }
    }
  }

  /** Appending the fallback records to live records numbered 1, 2, ...
      continues the numbering. */
  lemma {:induction false} MergeIds(live: seq<Problem>, fallback: seq<Problem>, all: seq<Problem>)
    requires forall k :: 0 <= k < |live| ==> live[k].id == k + 1
    requires all == live + Appended(fallback, Codes(live), |live| + 1)
    ensures forall k :: 0 <= k < |all| ==> all[k].id == k + 1
  {
    var added := NewCodes(fallback, Codes(live));
    AppendedIsRenumberedFilter(fallback, Codes(live), |live| + 1);
    forall k | 0 <= k < |all| ensures all[k].id == k + 1 {
      if k >= |live| {
        assert all[k] == added[k - |live|].(id := |live| + 1 + (k - |live|));
      } else {
        assert all[k] == live[k];
      }
    }
  }

  /** Each appended record is a fallback record with a code not among the
      live ones, carrying its new id. */
  lemma {:induction false} MergeAppended(live: seq<Problem>, fallback: seq<Problem>, all: seq<Problem>)
    requires all == live + Appended(fallback, Codes(live), |live| + 1)
    ensures forall k :: |live| <= k < |all| ==>
              all[k].code !in Codes(live) && exists j :: 0 <= j < |fallback| && all[k] == fallback[j].(id := k + 1)
  {
    AppendedIsRenumberedFilter(fallback, Codes(live), |live| + 1);
    forall k | |live| <= k < |all|
      ensures all[k].code !in Codes(live)
      ensures exists j :: 0 <= j < |fallback| && all[k] == fallback[j].(id := k + 1)
    {
      MergeAppendedAt(live, fallback, all, k);
    }
  }

  lemma {:induction false} MergeAppendedAt(live: seq<Problem>, fallback: seq<Problem>, all: seq<Problem>, k: int)
    requires all == live + Renumber(NewCodes(fallback, Codes(live)), |live| + 1)
    requires |live| <= k < |all|
    ensures all[k].code !in Codes(live)
    ensures exists j :: 0 <= j < |fallback| && all[k] == fallback[j].(id := k + 1)
  {
    var x := NewCodes(fallback, Codes(live))[k - |live|];
    assert all[k] == x.(id := k + 1);
    NewCodesMember(fallback, Codes(live), x);
    var j :| 0 <= j < |fallback| && fallback[j] == x;
  }

  /** What `fetch_codechef_problems` promises about the merge: with 50 or
      more live records nothing is added; otherwise the fallback records
      whose codes are not live follow in fallback order, numbered on. */
  lemma {:induction false} FetchSpec(responses: seq<Option<Json>>, table: seq<(string, string)>)
    requires |responses| == |Endpoints|
    ensures |Live(responses)| >= FallbackThreshold ==> Fetch(responses, table) == Live(responses)
    ensures |Live(responses)| < FallbackThreshold ==>
              Fetch(responses, table) == Live(responses)
                + Renumber(NewCodes(FallbackProblems(table), Codes(Live(responses))), |Live(responses)| + 1)
  {
    var live := Live(responses);
    AppendedIsRenumberedFilter(FallbackProblems(table), Codes(live), |live| + 1);
  }

  /** The fetched ids are 1, 2, 3, ... across live and fallback records. */
  lemma {:induction false} FetchIds(responses: seq<Option<Json>>, table: seq<(string, string)>)
    requires |responses| == |Endpoints|
    ensures forall k :: 0 <= k < |Fetch(responses, table)| ==> Fetch(responses, table)[k].id == k + 1
  {
    var live := Live(responses);
    LiveIds(responses);
    MergeIdsOf(live, table);
  }

  lemma {:induction false} MergeIdsOf(live: seq<Problem>, table: seq<(string, string)>)
    requires forall k :: 0 <= k < |live| ==> live[k].id == k + 1
    ensures forall k :: 0 <= k < |Merge(live, table)| ==> Merge(live, table)[k].id == k + 1
  {
    if |live| < FallbackThreshold {
      var fb := FallbackProblems(table);
      MergeIds(live, fb, Merge(live, table));
    }
  }

  /** Each record past the live ones is a table entry whose code is not
      live, with all its other fields (acceptance rate and submissions
      included) as at its position in the table. */
  lemma {:induction false} FetchFallbackRecords(responses: seq<Option<Json>>, table: seq<(string, string)>)
    requires |responses| == |Endpoints|
    ensures forall k :: |Live(responses)| <= k < |Fetch(responses, table)| ==>
              Fetch(responses, table)[k].code !in Codes(Live(responses))
              && exists j :: 0 <= j < |table| && Fetch(responses, table)[k] == FallbackProblem(table, j).(id := k + 1)
  {
    MergeFallbackRecords(Live(responses), table);
  }

  lemma {:induction false} MergeFallbackRecords(live: seq<Problem>, table: seq<(string, string)>)
    ensures forall k :: |live| <= k < |Merge(live, table)| ==>
              Merge(live, table)[k].code !in Codes(live)
              && exists j :: 0 <= j < |table| && Merge(live, table)[k] == FallbackProblem(table, j).(id := k + 1)
  {
    if |live| < FallbackThreshold {
      var fb := FallbackProblems(table);
      var all := Merge(live, table);
      MergeAppended(live, fb, all);
      forall k | |live| <= k < |all|
        ensures exists j :: 0 <= j < |table| && all[k] == FallbackProblem(table, j).(id := k + 1)
      {
        var j :| 0 <= j < |fb| && all[k] == fb[j].(id := k + 1);
        assert fb[j] == FallbackProblem(table, j);
      }
    }
  }

  // -------------------------------------------------------- saving

  datatype Metadata = Metadata(totalProblems: int, lastUpdated: string)
  datatype Saved = Saved(metadata: Metadata, problems: seq<Problem>)

  function IdOf(p: Problem): int { p.id }

  /** `save_to_json`: the records sorted by id inside the envelope;
      `now` is the timestamp. */
  function SaveToJson(problems: seq<Problem>, now: string): (out: Saved)
    ensures out.metadata.totalProblems == |out.problems| == |problems|
  {
    Saved(Metadata(|problems|, now), SortByKey(problems, IdOf))
  }

  /** The saved list is sorted by id, holds exactly the records given, and
      for the fetched records (already in id order) is their own order. */
  lemma {:induction false} SaveToJsonSpec(problems: seq<Problem>, now: string)
    ensures SortedBy(SaveToJson(problems, now).problems, IdOf)
    ensures multiset(SaveToJson(problems, now).problems) == multiset(problems)
    ensures (forall k :: 0 <= k < |problems| ==> problems[k].id == k + 1) ==> SaveToJson(problems, now).problems == problems
  {
    SortSorted(problems, IdOf);
    if forall k :: 0 <= k < |problems| ==> problems[k].id == k + 1 {
      SortSortedIsIdentity(problems, IdOf);
    }
  }

  /** The script: fetch, then save only a non-empty result (`None`: no
      file is written).  The script's fallback table is `RealProblems()`. */
  method Run(responses: seq<Option<Json>>, table: seq<(string, string)>, now: string) returns (out: Option<Saved>)
    requires |responses| == |Endpoints|
    ensures out.None? <==> Fetch(responses, table) == []
    ensures out.Some? ==> out.value == SaveToJson(Fetch(responses, table), now)
  {
    var problems := FetchCodechefProblems(responses, table);
    if problems != [] {
      out := Some(SaveToJson(problems, now));
    } else {
      out := None;
    }
  }
}
