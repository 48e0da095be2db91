/** `useProblemUserData`: the per-problem user data, a dictionary from
    composite ids (`source-id`) to a status and a bookmark flag.  Every
    update returns a new dictionary built by object spread; the reads are
    lookups with defaults.  The dictionary is the sequence of its entries
    in insertion order, as `Object.entries` yields them. */
module ProblemUserData {
  import opened Wrappers
  import opened Text
  import opened Catalogue

  const Solved: string := "Solved"
  const Attempted: string := "Attempted"
  const NotAttempted: string := "Not Attempted"

  /** The three values of the status type. */
  predicate IsStatus(s: string) {
    s == Solved || s == Attempted || s == NotAttempted
  }

  datatype Entry = Entry(status: string, bookmarked: bool)

  /** What an absent key stands for. */
  const Fresh: Entry := Entry(NotAttempted, false)

  type Store = seq<(string, Entry)>

  /** A JavaScript object never holds a key twice. */
  ghost predicate DistinctKeys(store: Store) {
    forall i, j :: 0 <= i < j < |store| ==> store[i].0 != store[j].0
  }

  /** `generateCompositeId`: the source, a dash, then the id in decimal. */
  function CompositeId(id: int, source: string): string {
    source + "-" + Decimal(id)
  }

  /** For sources without a dash (all the sources the client uses) the
      composite id determines both the source and the id. */
  lemma CompositeIdInjective(id1: int, source1: string, id2: int, source2: string)
    requires Lacks(source1, '-') && Lacks(source2, '-')
    requires CompositeId(id1, source1) == CompositeId(id2, source2)
    ensures id1 == id2 && source1 == source2
  {
    var key := CompositeId(id1, source1);
    assert key == source1 + ['-'] + Decimal(id1);
    assert key == source2 + ['-'] + Decimal(id2);
    SplitAt(source1, '-', Decimal(id1));
    SplitAt(source2, '-', Decimal(id2));
    assert source1 == Split(key, '-')[0] == source2;
    assert Decimal(id1) == key[|source1| + 1..] == Decimal(id2);
    DecimalInjective(id1, id2);
  }

  /** `store[key]`: the entry stored under `key`, if any. */
  function Lookup(store: Store, key: string): (r: Option<Entry>)
  {
    if store == [] then None
    else if store[0].0 == key then Some(store[0].1)
    else Lookup(store[1..], key)
  }

  /** `{...store, [key]: e}`: an existing key keeps its place and takes
      the new value; a new key goes last. */
  function Put(store: Store, key: string, e: Entry): (r: Store)
  {
    if store == [] then [(key, e)]
    else if store[0].0 == key then [(key, e)] + store[1..]
    else [store[0]] + Put(store[1..], key, e)
  }

  /** After the update the key reads as the new value and every other
      key reads as before. */
  lemma {:induction false} PutSpec(store: Store, key: string, e: Entry, other: string)
    ensures Lookup(Put(store, key, e), key) == Some(e)
    ensures other != key ==> Lookup(Put(store, key, e), other) == Lookup(store, other)
  {
    if store != [] && store[0].0 != key {
      PutSpec(store[1..], key, e, other);
    }
  }

  /** The update keeps the keys of an object distinct. */
  lemma {:induction false} PutDistinct(store: Store, key: string, e: Entry)
    requires DistinctKeys(store)
    ensures DistinctKeys(Put(store, key, e))
  {
    if store != [] && store[0].0 != key {
      PutDistinct(store[1..], key, e);
      PutKeys(store[1..], key, e);
      var r := Put(store, key, e);
      forall j | 1 <= j < |r| ensures r[0].0 != r[j].0 {
        var k := Put(store[1..], key, e)[j - 1].0;
        assert k == key || exists i :: 0 <= i < |store[1..]| && store[1..][i].0 == k;
      }
    }
  }

  /** Every key of the updated object is the new key or an old one. */
  lemma {:induction false} PutKeys(store: Store, key: string, e: Entry)
    ensures forall j :: 0 <= j < |Put(store, key, e)| ==>
              Put(store, key, e)[j].0 == key || exists i :: 0 <= i < |store| && store[i].0 == Put(store, key, e)[j].0
  {
    if store != [] && store[0].0 != key {
      PutKeys(store[1..], key, e);
      var r := Put(store, key, e);
      forall j | 1 <= j < |r|
        ensures r[j].0 == key || exists i :: 0 <= i < |store| && store[i].0 == r[j].0
      {
        if r[j].0 != key {
          var i :| 0 <= i < |store[1..]| && store[1..][i].0 == r[j].0;
          assert store[i + 1].0 == r[j].0;
        }
      }
    }
  }

  /** The entry a key stands for: the stored one, or the fresh default. */
  function Current(store: Store, key: string): Entry {
    Lookup(store, key).GetOr(Fresh)
  }

  /** `toggleBookmark`. */
  function ToggleBookmark(store: Store, id: int, source: string): Store {
    var key := CompositeId(id, source);
    var current := Current(store, key);
    Put(store, key, current.(bookmarked := !current.bookmarked))
  }

  /** `updateProblemStatus`. */
  function UpdateStatus(store: Store, id: int, status: string, source: string): Store {
    var key := CompositeId(id, source);
    Put(store, key, Current(store, key).(status := status))
  }

  /** `isBookmarked`. */
  function IsBookmarked(store: Store, id: int, source: string): bool {
    var e := Lookup(store, CompositeId(id, source));
    e.Some? && e.value.bookmarked
  }

  /** `getProblemStatus`: an absent entry or an empty status reads as
      'Not Attempted'. */
  function GetStatus(store: Store, id: int, source: string): string {
    var e := Lookup(store, CompositeId(id, source));
    if e.Some? && e.value.status != "" then e.value.status else NotAttempted
  }

  /** A key nobody has touched reads as not attempted and not bookmarked. */
  lemma AbsentReadsFresh(store: Store, id: int, source: string)
    requires Lookup(store, CompositeId(id, source)).None?
    ensures GetStatus(store, id, source) == NotAttempted
    ensures !IsBookmarked(store, id, source)
  {
  }

  /** Toggling flips the bookmark of that key, keeps its status (the
      default one for a new key) and leaves every other key alone. */
  lemma ToggleBookmarkSpec(store: Store, id: int, source: string, other: string)
    ensures var key := CompositeId(id, source);
            var current := Current(store, key);
            Lookup(ToggleBookmark(store, id, source), key) == Some(Entry(current.status, !current.bookmarked))
    ensures IsBookmarked(ToggleBookmark(store, id, source), id, source) == !IsBookmarked(store, id, source)
    ensures other != CompositeId(id, source) ==> Lookup(ToggleBookmark(store, id, source), other) == Lookup(store, other)
  {
    var key := CompositeId(id, source);
    var current := Current(store, key);
    PutSpec(store, key, current.(bookmarked := !current.bookmarked), other);
  }

  /** Toggling twice gives the key back its original bookmark state. */
  lemma ToggleTwice(store: Store, id: int, source: string)
    ensures IsBookmarked(ToggleBookmark(ToggleBookmark(store, id, source), id, source), id, source)
         == IsBookmarked(store, id, source)
    ensures GetStatus(ToggleBookmark(ToggleBookmark(store, id, source), id, source), id, source)
         == GetStatus(store, id, source)
  {
    var once := ToggleBookmark(store, id, source);
    var key := CompositeId(id, source);
    ToggleBookmarkSpec(store, id, source, key);
    ToggleBookmarkSpec(once, id, source, key);
  }

  /** Setting a status: that key now reads as the new status with its
      bookmark kept, and every other key is left alone. */
  lemma UpdateStatusSpec(store: Store, id: int, status: string, source: string, other: string)
    requires IsStatus(status)
    ensures GetStatus(UpdateStatus(store, id, status, source), id, source) == status
    ensures IsBookmarked(UpdateStatus(store, id, status, source), id, source) == IsBookmarked(store, id, source)
    ensures other != CompositeId(id, source) ==> Lookup(UpdateStatus(store, id, status, source), other) == Lookup(store, other)
  {
    var key := CompositeId(id, source);
    PutSpec(store, key, Current(store, key).(status := status), other);
  }

  /** The source a problem is filed under: `problem.source || 'unknown'`. */
  function SourceOf(p: Problem): string {
    if p.source.Some? && p.source.value != "" then p.source.value else "unknown"
  }

  datatype Annotated = Annotated(problem: Problem, status: string, bookmarked: bool)

  /** `problemsWithUserData`: each problem with its status and bookmark. */
  function WithUserData(problems: seq<Problem>, store: Store): (r: seq<Annotated>)
    ensures |r| == |problems|
    ensures forall i :: 0 <= i < |r| ==> r[i].problem == problems[i]
  {
    seq(|problems|, i requires 0 <= i < |problems| =>
      var p := problems[i];
      Annotated(p, GetStatus(store, p.id, SourceOf(p)), IsBookmarked(store, p.id, SourceOf(p))))
  }

  /** Toggling a listed problem's bookmark under its own source flips the
      flag the list shows for it, and only for problems sharing its id and
      source. */
  lemma ToggleShows(problems: seq<Problem>, store: Store, i: int, j: int)
    requires 0 <= i < |problems| && 0 <= j < |problems|
    ensures var after := WithUserData(problems, ToggleBookmark(store, problems[i].id, SourceOf(problems[i])));
            var before := WithUserData(problems, store);
            var same := CompositeId(problems[j].id, SourceOf(problems[j])) == CompositeId(problems[i].id, SourceOf(problems[i]));
            (same ==> after[j].bookmarked == !before[j].bookmarked) && (!same ==> after[j] == before[j])
  {
    var p, q := problems[i], problems[j];
    ToggleBookmarkSpec(store, p.id, SourceOf(p), CompositeId(q.id, SourceOf(q)));
  }
}
