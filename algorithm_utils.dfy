/** `algorithmUtils`: grouping the algorithm catalogue by category, the
    category colours, the complexity table, the key points of a
    description and the complexity comparison used for ordering. */
module AlgorithmUtils {
  import opened Wrappers
  import opened Text
  import opened Numbering

  // ------------------------------------------------------ groupByCategory

  /** A `Record<string, T[]>` as its entries in the order the keys were
      first added.  JavaScript enumerates integer-like keys first, in
      ascending order; that reordering is not modelled. */
  type Groups<T> = seq<(string, seq<T>)>

  /** `groups[key]`, or `None` for a key never added. */
  function GroupOf<T>(groups: Groups<T>, key: string): Option<seq<T>> {
    if groups == [] then None
    else if groups[0].0 == key then Some(groups[0].1)
    else GroupOf(groups[1..], key)
  }

  /** One step of the `reduce`: create the group when the key is new, then
      push the item onto it. */
  function AddTo<T>(groups: Groups<T>, key: string, x: T): Groups<T> {
    if groups == [] then [(key, [x])]
    else if groups[0].0 == key then [(key, groups[0].1 + [x])] + groups[1..]
    else [groups[0]] + AddTo(groups[1..], key, x)
  }

  /** `groupByCategory`: the items folded into groups from the first to
      the last. */
  function GroupByCategory<T>(items: seq<T>, category: T -> string): Groups<T> {
    if items == [] then []
    else
      var last := items[|items| - 1];
      AddTo(GroupByCategory(items[..|items| - 1], category), category(last), last)
  }

  function InCategory<T>(category: T -> string, key: string): T -> bool {
    (x: T) => category(x) == key
  }

  /** No key appears twice and no group is empty. */
  ghost predicate WellFormed<T>(groups: Groups<T>) {
    (forall i, j :: 0 <= i < j < |groups| ==> groups[i].0 != groups[j].0)
    && forall i :: 0 <= i < |groups| ==> groups[i].1 != []
  }

  lemma {:induction false} AddToSpec<T>(groups: Groups<T>, key: string, x: T, other: string)
    ensures GroupOf(AddTo(groups, key, x), key) == Some(GroupOf(groups, key).GetOr([]) + [x])
    ensures other != key ==> GroupOf(AddTo(groups, key, x), other) == GroupOf(groups, other)
  {
    var r := AddTo(groups, key, x);
    if groups == [] {
      assert r[0] == (key, [x]);
      assert [] + [x] == [x];
    } else if groups[0].0 == key {
      assert r[0] == (key, groups[0].1 + [x]) && r[1..] == groups[1..];
    } else {
      AddToSpec(groups[1..], key, x, other);
      assert r[0] == groups[0] && r[1..] == AddTo(groups[1..], key, x);
    }
  }

  /** A key is present exactly when some group carries it. */
  lemma {:induction false} GroupOfSome<T>(groups: Groups<T>, key: string)
    ensures GroupOf(groups, key).Some? <==> exists i :: 0 <= i < |groups| && groups[i].0 == key
  {
    if groups != [] {
      GroupOfSome(groups[1..], key);
      if groups[0].0 != key {
        assert forall i :: 0 < i < |groups| ==> groups[i] == groups[1..][i - 1];
        if exists i :: 0 <= i < |groups| && groups[i].0 == key {
          var i :| 0 <= i < |groups| && groups[i].0 == key;
          assert groups[1..][i - 1].0 == key;
        }
      }
    }
  }

  /** Putting a non-empty group with a fresh key in front keeps the
      groups well formed. */
  lemma ConsWellFormed<T>(g: (string, seq<T>), tail: Groups<T>)
    requires WellFormed(tail) && g.1 != []
    requires forall j :: 0 <= j < |tail| ==> tail[j].0 != g.0
    ensures WellFormed([g] + tail)
  {
    var r := [g] + tail;
    assert forall j :: 0 < j < |r| ==> r[j] == tail[j - 1];
  }

  /** Every key after the first group of well-formed groups differs from
      the first key, and the rest is well formed. */
  lemma RestWellFormed<T>(groups: Groups<T>)
    requires WellFormed(groups) && groups != []
    ensures WellFormed(groups[1..])
    ensures forall j :: 0 <= j < |groups[1..]| ==> groups[1..][j].0 != groups[0].0
  {
    var rest := groups[1..];
    assert forall i :: 0 <= i < |rest| ==> rest[i] == groups[i + 1];
  }

  lemma {:induction false} AddToWellFormed<T>(groups: Groups<T>, key: string, x: T)
    requires WellFormed(groups)
    ensures WellFormed(AddTo(groups, key, x))
    ensures |AddTo(groups, key, x)| == |groups| + (if GroupOf(groups, key).Some? then 0 else 1)
  {
    if groups != [] {
      var rest := groups[1..];
      RestWellFormed(groups);
      if groups[0].0 != key {
        AddToWellFormed(rest, key, x);
        var tail := AddTo(rest, key, x);
        forall j | 0 <= j < |tail| ensures tail[j].0 != groups[0].0 {
          var k := tail[j].0;
          GroupOfSome(tail, k);
          if k != key {
            AddToSpec(rest, key, x, k);
            GroupOfSome(rest, k);
          }
        }
        ConsWellFormed(groups[0], tail);
      } else {
        ConsWellFormed((key, groups[0].1 + [x]), rest);
      }
    }
  }

  /** Each category's group is exactly the items of that category in
      their original order, and a category no item has has no group. */
  lemma {:induction false} GroupByCategorySpec<T>(items: seq<T>, category: T -> string, key: string)
    ensures var kept := Filter(items, InCategory(category, key));
            GroupOf(GroupByCategory(items, category), key) == if kept == [] then None else Some(kept)
  {
    if items != [] {
      var init, last := items[..|items| - 1], items[|items| - 1];
      GroupByCategorySpec(init, category, key);
      AddToSpec(GroupByCategory(init, category), category(last), last, key);
    }
  }

  /** The groups have distinct keys, none is empty, and there is one per
      category that occurs. */
  lemma {:induction false} GroupByCategoryWellFormed<T>(items: seq<T>, category: T -> string)
    ensures WellFormed(GroupByCategory(items, category))
  {
    if items != [] {
      var init, last := items[..|items| - 1], items[|items| - 1];
      GroupByCategoryWellFormed(init, category);
      AddToWellFormed(GroupByCategory(init, category), category(last), last);
      var g := GroupByCategory(items, category);
      forall i | 0 <= i < |g| ensures g[i].1 != [] {
        var k := g[i].0;
        GroupOfSome(g, k);
        GroupByCategorySpec(items, category, k);
        WellFormedLookup(g, i);
      }
    }
  }

  /** In well-formed groups, looking up a group's key finds that group. */
  lemma {:induction false} WellFormedLookup<T>(groups: Groups<T>, i: int)
    requires 0 <= i < |groups|
    requires forall a, b :: 0 <= a < b < |groups| ==> groups[a].0 != groups[b].0
    ensures GroupOf(groups, groups[i].0) == Some(groups[i].1)
  {
    if i > 0 {
      var rest := groups[1..];
      assert rest[i - 1] == groups[i];
      assert groups[0].0 != groups[i].0;
      WellFormedLookup(rest, i - 1);
    }
  }

  /** Every item is in exactly one group: the group of its own category. */
  lemma ExactlyOneGroup<T>(items: seq<T>, category: T -> string, x: T, i: int)
    requires 0 <= i < |GroupByCategory(items, category)|
    ensures var g := GroupByCategory(items, category)[i];
            x in g.1 <==> x in items && category(x) == g.0
  {
    var g := GroupByCategory(items, category);
    GroupByCategoryWellFormed(items, category);
    WellFormedLookup(g, i);
    GroupByCategorySpec(items, category, g[i].0);
    FilterSpec(items, InCategory(category, g[i].0));
  }

  // ------------------------------------------------------ getCategoryColor

  datatype Colors = Colors(bg: string, text: string)

  const Gray := Colors("bg-gray-200", "text-gray-800")

  /** `getCategoryColor`: the colours of a category, compared in lower
      case, gray for any other. */
  function CategoryColor(category: string): Colors {
    var c := Lower(category);
    if c == "search" then Colors("bg-blue-100", "text-blue-800")
    else if c == "sort" then Colors("bg-green-100", "text-green-800")
    else if c == "graph" then Colors("bg-purple-100", "text-purple-800")
    else if c == "data structure" then Colors("bg-orange-100", "text-orange-800")
    else if c == "dynamic programming" then Colors("bg-amber-100", "text-amber-800")
    else if c == "greedy" then Colors("bg-rose-100", "text-rose-800")
    else Gray
  }

  const KnownCategories: seq<string> :=
    ["search", "sort", "graph", "data structure", "dynamic programming", "greedy"]

  /** The colour ignores case, and it is gray exactly for a category
      outside the six known ones. */
  lemma CategoryColorSpec(category: string)
    ensures CategoryColor(Upper(category)) == CategoryColor(category)
    ensures CategoryColor(Lower(category)) == CategoryColor(category)
    ensures CategoryColor(category) == Gray <==> Lower(category) !in KnownCategories
  {
    LowerOfUpper(category);
    LowerOfLower(category);
  }

  lemma LowerOfLower(s: string)
    ensures Lower(Lower(s)) == Lower(s)
  {
    forall i | 0 <= i < |s| ensures Lower(Lower(s))[i] == Lower(s)[i] {
    }
  }

  // ------------------------------------------------------ getTimeComplexityDetails

  datatype Complexity = Complexity(best: string, average: string, worst: string)

  const Unknown := Complexity("-", "-", "-")

  /** The table of best, average and worst cases; `\U{B2}` is the
      superscript two. */
  function ComplexityTable(): seq<(string, Complexity)> {
    [ ("binary-search", Complexity("O(1)", "O(log n)", "O(log n)")),
      ("quick-sort", Complexity("O(n log n)", "O(n log n)", "O(n\U{B2})")),
      ("dijkstra", Complexity("O((V + E) log V)", "O((V + E) log V)", "O((V + E) log V)")),
      ("heap-sort", Complexity("O(n log n)", "O(n log n)", "O(n log n)")),
      ("merge-sort", Complexity("O(n log n)", "O(n log n)", "O(n log n)")),
      ("breadth-first-search", Complexity("O(V + E)", "O(V + E)", "O(V + E)")) ]
  }

  function Find<V>(table: seq<(string, V)>, key: string): Option<V> {
    if table == [] then None
    else if table[0].0 == key then Some(table[0].1)
    else Find(table[1..], key)
  }

  /** `complexityDetails[id] || { '-', '-', '-' }`. */
  function TimeComplexityDetails(id: string): Complexity {
    Find(ComplexityTable(), id).GetOr(Unknown)
  }

  lemma {:induction false} FindSpec<V>(table: seq<(string, V)>, key: string)
    ensures Find(table, key).Some? <==> exists i :: 0 <= i < |table| && table[i].0 == key
    ensures Find(table, key).Some? ==> exists i :: 0 <= i < |table| && table[i] == (key, Find(table, key).value)
  {
    if table != [] && table[0].0 != key {
      FindSpec(table[1..], key);
      assert forall i :: 0 < i < |table| ==> table[i] == table[1..][i - 1];
      if Find(table, key).Some? {
        var i :| 0 <= i < |table[1..]| && table[1..][i] == (key, Find(table, key).value);
        assert table[i + 1] == table[1..][i];
      }
    }
  }

  /** An id of the table gets its row, any other id the dashes; no row of
      the table is the dashes. */
  lemma TimeComplexityDetailsSpec(id: string)
    ensures TimeComplexityDetails(id) == Unknown <==> forall i :: 0 <= i < |ComplexityTable()| ==> ComplexityTable()[i].0 != id
    ensures TimeComplexityDetails(id) != Unknown ==> (id, TimeComplexityDetails(id)) in ComplexityTable()
  {
    var t := ComplexityTable();
    FindSpec(t, id);
    assert forall i :: 0 <= i < |t| ==> t[i].1.best != "-";
  }

  // ------------------------------------------------------ extractKeyPoints

  predicate LongPiece(s: string) {
    |s| > 20
  }

  /** The pieces between the periods, trimmed. */
  function TrimmedPieces(description: string): (r: seq<string>)
    ensures |r| == |Split(description, '.')|
  {
    var pieces := Split(description, '.');
    seq(|pieces|, i requires 0 <= i < |pieces| => Trim(pieces[i]))
  }

  /** `extractKeyPoints`: the trimmed pieces longer than 20 characters,
      each with a period put back. */
  function KeyPoints(description: string): seq<string> {
    var kept := Filter(TrimmedPieces(description), LongPiece);
    seq(|kept|, i requires 0 <= i < |kept| => kept[i] + ".")
  }

  lemma TrimLacks(s: string, c: char)
    requires Lacks(s, c)
    ensures Lacks(Trim(s), c)
  {
    var k :| OccursAt(s, Trim(s), k);
    forall i | 0 <= i < |Trim(s)| ensures Trim(s)[i] != c {
      assert Trim(s)[i] == s[k + i];
    }
  }

  /** One key point: a trimmed sentence of more than 20 characters
      followed by its one period. */
  predicate KeyPointShape(p: string) {
    |p| > 21 && p[|p| - 1] == '.' && Lacks(p[..|p| - 1], '.') && !IsSpace(p[0]) && !IsSpace(p[|p| - 2])
  }

  lemma KeyPointShaped(description: string, i: int)
    requires 0 <= i < |KeyPoints(description)|
    ensures KeyPointShape(KeyPoints(description)[i])
  {
    var pieces := Split(description, '.');
    var trimmed := TrimmedPieces(description);
    var kept := Filter(trimmed, LongPiece);
    var p := KeyPoints(description)[i];
    FilterSpec(trimmed, LongPiece);
    assert kept[i] in kept;
    var k :| 0 <= k < |trimmed| && trimmed[k] == kept[i];
    SplitSpec(description, '.');
    TrimLacks(pieces[k], '.');
    assert p == kept[i] + ".";
    assert p[..|p| - 1] == kept[i];
  }

  lemma KeyPointFound(description: string, k: int)
    requires 0 <= k < |Split(description, '.')| && |Trim(Split(description, '.')[k])| > 20
    ensures Trim(Split(description, '.')[k]) + "." in KeyPoints(description)
  {
    var trimmed := TrimmedPieces(description);
    var kept := Filter(trimmed, LongPiece);
    FilterSpec(trimmed, LongPiece);
    assert trimmed[k] in trimmed;
    var j :| 0 <= j < |kept| && kept[j] == trimmed[k];
    assert KeyPoints(description)[j] == trimmed[k] + ".";
  }

  /** Every key point is a trimmed sentence of more than 20 characters
      followed by its one period; every such sentence of the description
      gives a key point; there are no more key points than periods plus
      one. */
  lemma KeyPointsSpec(description: string)
    ensures |KeyPoints(description)| <= |Split(description, '.')|
    ensures forall i :: 0 <= i < |KeyPoints(description)| ==> KeyPointShape(KeyPoints(description)[i])
    ensures forall k :: 0 <= k < |Split(description, '.')| && |Trim(Split(description, '.')[k])| > 20 ==>
              Trim(Split(description, '.')[k]) + "." in KeyPoints(description)
  {
    forall i | 0 <= i < |KeyPoints(description)| ensures KeyPointShape(KeyPoints(description)[i]) {
      KeyPointShaped(description, i);
    }
    forall k | 0 <= k < |Split(description, '.')| && |Trim(Split(description, '.')[k])| > 20
      ensures Trim(Split(description, '.')[k]) + "." in KeyPoints(description)
    {
      KeyPointFound(description, k);
    }
  }

  // ------------------------------------------------------ compareAlgorithms

  /** The complexity classes in the order they are tried. */
  function ComplexityOrder(): seq<(string, int)> {
    [("O(1)", 1), ("O(log n)", 2), ("O(n)", 3), ("O(n log n)", 4), ("O(n\U{B2})", 5), ("O(2^n)", 6), ("O(n!)", 7)]
  }

  /** `getMainComplexity` over a table: the value of the first key, in
      table order, that occurs in the string, or 99. */
  function Rank(complexity: string, order: seq<(string, int)>): int {
    if order == [] then 99
    else if Contains(complexity, order[0].0) then order[0].1
    else Rank(complexity, order[1..])
  }

  function MainComplexity(complexity: string): int {
    Rank(complexity, ComplexityOrder())
  }

  /** `compareAlgorithms`. */
  function CompareAlgorithms(a: string, b: string): int {
    MainComplexity(a) - MainComplexity(b)
  }

  /** The rank is 99 exactly when no key occurs, and otherwise the value of
      a key that occurs with no earlier key occurring. */
  lemma {:induction false} RankSpec(complexity: string, order: seq<(string, int)>)
    ensures (Rank(complexity, order) == 99 && forall i :: 0 <= i < |order| ==> !Contains(complexity, order[i].0))
            || exists i :: 0 <= i < |order| && Contains(complexity, order[i].0)
                 && Rank(complexity, order) == order[i].1
                 && forall j :: 0 <= j < i ==> !Contains(complexity, order[j].0)
  {
    if order != [] && !Contains(complexity, order[0].0) {
      var rest := order[1..];
      RankSpec(complexity, rest);
      assert forall i :: 0 < i < |order| ==> order[i] == rest[i - 1];
      if Rank(complexity, rest) != 99 || exists i :: 0 <= i < |rest| && Contains(complexity, rest[i].0) {
        var i :| 0 <= i < |rest| && Contains(complexity, rest[i].0)
                 && Rank(complexity, rest) == rest[i].1
                 && forall j :: 0 <= j < i ==> !Contains(complexity, rest[j].0);
        assert order[i + 1] == rest[i];
      }
    }
  }

  /** A needle whose first character the string has only at its start
      occurs in it only as a prefix. */
  lemma AbsentAfterHead(hay: string, needle: string)
    requires needle != [] && forall i :: 0 < i < |hay| ==> hay[i] != needle[0]
    requires !(needle <= hay)
    ensures !Contains(hay, needle)
  {
  }

  /** Strings that differ in their third or fourth character are not
      prefixes of each other. */
  lemma NotPrefix(a: string, b: string)
    requires |a| >= 4 && |b| >= 4 && (a[2] != b[2] || a[3] != b[3])
    ensures !(a <= b)
  {
  }

  /** Each class of the table ranks as its own value: no earlier key
      occurs inside a later one (`O(n)` is not inside `O(n log n)` or
      `O(n\U{B2})`), so the table order never hides a class. */
  lemma MainComplexityOfKeys()
    ensures forall i :: 0 <= i < |ComplexityOrder()| ==>
              MainComplexity(ComplexityOrder()[i].0) == ComplexityOrder()[i].1
  {
    var t := ComplexityOrder();
    forall i | 0 <= i < |t| ensures |t[i].0| >= 4 && t[i].0[0] == 'O' && forall k :: 0 < k < |t[i].0| ==> t[i].0[k] != 'O' {
      if i == 0 {} else if i == 1 {} else if i == 2 {} else if i == 3 {} else if i == 4 {} else if i == 5 {} else {}
    }
    forall i, j | 0 <= j < i < |t| ensures !Contains(t[i].0, t[j].0) {
      assert t[i].0[2] != t[j].0[2] || t[i].0[3] != t[j].0[3] by {
        if i == 1 {
        } else if i == 2 { if j == 0 {} else {}
        } else if i == 3 { if j == 0 {} else if j == 1 {} else {}
        } else if i == 4 { if j == 0 {} else if j == 1 {} else if j == 2 {} else {}
        } else if i == 5 { if j == 0 {} else if j == 1 {} else if j == 2 {} else if j == 3 {} else {}
        } else { if j == 0 {} else if j == 1 {} else if j == 2 {} else if j == 3 {} else if j == 4 {} else {}
        }
      }
      NotPrefix(t[j].0, t[i].0);
      AbsentAfterHead(t[i].0, t[j].0);
    }
    forall i | 0 <= i < |t| ensures MainComplexity(t[i].0) == t[i].1 {
      assert Contains(t[i].0, t[i].0);
      RankSpec(t[i].0, t);
    }
  }

  /** The rank of a complexity is one of 1..7 or 99 for unknown, and the
      comparison is the difference of ranks: zero on equal strings, and
      antisymmetric. */
  lemma CompareAlgorithmsSpec(a: string, b: string)
    ensures MainComplexity(a) in {1, 2, 3, 4, 5, 6, 7, 99}
    ensures CompareAlgorithms(a, a) == 0
    ensures CompareAlgorithms(a, b) == -CompareAlgorithms(b, a)
    ensures CompareAlgorithms(a, b) < 0 <==> MainComplexity(a) < MainComplexity(b)
  {
    RankSpec(a, ComplexityOrder());
  }
}
