/** The table behind the hash-table visualiser: seven slots, each holding a
    primary entry and a chain of colliding entries; keys are hashed by the
    running sum of their UTF-16 code units modulo the table size. */
module HashTable {
  import opened Wrappers

  const TableSize: nat := 7

  datatype Entry = Entry(key: string, value: string)

  /** A slot: the primary entry (an empty key marks a free slot) and the
      collision chain. */
  datatype Slot = Slot(key: string, value: string, collisions: seq<Entry>)

  const FreeSlot := Slot("", "", [])

  /** The UTF-16 code units of one character, as `charCodeAt` reads them:
      the character itself below 0x10000, otherwise its surrogate pair. */
  function Units(c: char): seq<int> {
    var n := c as int;
    if n < 0x1_0000 then [n]
    else
      var m := n - 0x1_0000;
      [0xD800 + m / 0x400, 0xDC00 + m % 0x400]
  }

  /** One unit below 0x10000, two otherwise, each a 16-bit value. */
  lemma UnitsRange(c: char)
    ensures var r := Units(c);
            1 <= |r| <= 2 && (|r| == 1 <==> (c as int) < 0x1_0000)
            && forall i :: 0 <= i < |r| ==> 0 <= r[i] < 0x1_0000
  {
  }

  /** A surrogate pair decodes back to its character: a high surrogate
      followed by a low one, carrying the ten high and ten low bits of the
      offset from 0x10000. */
  lemma UnitsDecode(c: char)
    requires (c as int) >= 0x1_0000
    ensures var u := Units(c);
            0xD800 <= u[0] < 0xDC00 && 0xDC00 <= u[1] < 0xE000
            && 0x1_0000 + (u[0] - 0xD800) * 0x400 + (u[1] - 0xDC00) == c as int
  {
  }

  /** A JavaScript string's code units (`key.length` of them). */
  function Utf16(key: string): seq<int> {
    if key == "" then [] else Utf16(key[..|key| - 1]) + Units(key[|key| - 1])
  }

  function Sum(s: seq<int>): int {
    if s == [] then 0 else Sum(s[..|s| - 1]) + s[|s| - 1]
  }

  /** The slot a key belongs to: the sum of its `charCodeAt` values modulo
      the table size. */
  function HashOf(key: string): (h: nat)
    ensures h < TableSize
  {
    Sum(Utf16(key)) % TableSize
  }

  /** A character outside the Basic Multilingual Plane counts as its two
      surrogates: U+1F600 hashes to (0xD83D + 0xDE00) % 7 = 0, not to
      0x1F600 % 7 = 6. */
  lemma AstralKeyHash()
    ensures Utf16("\U{1F600}") == [0xD83D, 0xDE00]
    ensures HashOf("\U{1F600}") == 0 && 0x1F600 % TableSize == 6
  {
    assert "\U{1F600}"[..0] == "";
    assert [0xD83D, 0xDE00][..1] == [0xD83D];
    assert Sum([0xD83D, 0xDE00]) == 0xD83D + 0xDE00;
  }

  /** The hash loop over `key.length` code units: the running sum is
      reduced modulo the table size after every unit, which gives the same
      slot as reducing once. */
  method HashFunction(key: string) returns (hash: int)
    ensures hash == HashOf(key)
  {
    var units := Utf16(key);
    hash := 0;
    var i := 0;
    while i < |units|
      invariant 0 <= i <= |units|
      invariant hash == Sum(units[..i]) % TableSize
    {
      assert units[..i + 1][..i] == units[..i];
      hash := (hash + units[i]) % TableSize;
      i := i + 1;
    }
    assert units[..i] == units;
  }

  /** `findIndex` on a collision chain: the first entry with key `k`, or -1. */
  function IndexOf(chain: seq<Entry>, k: string): (r: int)
    ensures -1 <= r < |chain|
    ensures r >= 0 ==> chain[r].key == k && forall j :: 0 <= j < r ==> chain[j].key != k
    ensures r == -1 ==> forall j :: 0 <= j < |chain| ==> chain[j].key != k
  {
    if chain == [] then -1
    else if chain[0].key == k then 0
    else
      var r := IndexOf(chain[1..], k);
      if r == -1 then -1 else r + 1
  }

  /** `find` on a collision chain: the value of the first entry with key
      `k`. */
  function ChainFind(chain: seq<Entry>, k: string): (r: Option<string>)
    ensures r.None? <==> IndexOf(chain, k) == -1
    ensures r.Some? ==> r.value == chain[IndexOf(chain, k)].value
  {
    if chain == [] then None
    else if chain[0].key == k then Some(chain[0].value)
    else ChainFind(chain[1..], k)
  }

  /** What a lookup of `k` finds in slot `s`: nothing in a free slot, the
      primary value when the primary key is `k`, else the chain entry. */
  function SlotFind(s: Slot, k: string): Option<string> {
    if s.key == "" then None
    else if s.key == k then Some(s.value)
    else ChainFind(s.collisions, k)
  }

  /** The keys of a chain are pairwise distinct. */
  ghost predicate DistinctKeys(chain: seq<Entry>) {
    forall i, j :: 0 <= i < j < |chain| ==> chain[i].key != chain[j].key
  }

  /** Slot `h` is well formed: a free primary has an empty chain, every key
      stored there hashes to `h`, and no key appears twice across the primary
      entry and the chain. */
  ghost predicate SlotOk(s: Slot, h: nat) {
    (s.key == "" ==> s.collisions == []) &&
    (s.key != "" ==> HashOf(s.key) == h) &&
    (forall i :: 0 <= i < |s.collisions| ==>
       s.collisions[i].key != "" && s.collisions[i].key != s.key &&
       HashOf(s.collisions[i].key) == h) &&
    DistinctKeys(s.collisions)
  }

  /** Slot `s'` is a well-formed replacement of `s` in which `key` now finds
      `found` and every other key finds what it found before. */
  ghost predicate SlotUpdated(s: Slot, s': Slot, h: nat, key: string, found: Option<string>) {
    SlotOk(s', h) && SlotFind(s', key) == found &&
    forall k :: k != key ==> SlotFind(s', k) == SlotFind(s, k)
  }

  /** Overwriting the value of the first entry with key `k0` changes what
      `k0` finds and nothing else. */
  lemma {:induction false} ChainFindUpdate(chain: seq<Entry>, i: int, v: string, k: string)
    requires 0 <= i < |chain| && IndexOf(chain, chain[i].key) == i
    ensures ChainFind(chain[i := Entry(chain[i].key, v)], k) ==
      if k == chain[i].key then Some(v) else ChainFind(chain, k)
  {
    if i > 0 && chain[0].key != k {
      assert chain[i := Entry(chain[i].key, v)][1..] == chain[1..][i - 1 := Entry(chain[i].key, v)];
      ChainFindUpdate(chain[1..], i - 1, v, k);
    }
  }

  /** Appending an entry whose key is absent makes that key find it and
      changes nothing else. */
  lemma {:induction false} ChainFindPush(chain: seq<Entry>, e: Entry, k: string)
    requires ChainFind(chain, e.key).None?
    ensures ChainFind(chain + [e], k) == if k == e.key then Some(e.value) else ChainFind(chain, k)
  {
    if chain == [] {
    } else {
      assert (chain + [e])[1..] == chain[1..] + [e];
      if chain[0].key != k {
        ChainFindPush(chain[1..], e, k);
      }
    }
  }

  /** Removing entry `i` (a `splice`) keeps every other key finding the same
      value. */
  lemma {:induction false} ChainFindRemove(chain: seq<Entry>, i: int, k: string)
    requires 0 <= i < |chain| && chain[i].key != k
    ensures ChainFind(chain[..i] + chain[i + 1..], k) == ChainFind(chain, k)
  {
    if i == 0 {
      assert chain[..i] + chain[i + 1..] == chain[1..];
    } else if chain[0].key != k {
      assert (chain[..i] + chain[i + 1..])[1..] == chain[1..][..i - 1] + chain[1..][i..];
      ChainFindRemove(chain[1..], i - 1, k);
    }
  }

  /** A key that no entry of the chain carries finds nothing. */
  lemma ChainFindAbsent(chain: seq<Entry>, k: string)
    requires forall i :: 0 <= i < |chain| ==> chain[i].key != k
    ensures ChainFind(chain, k) == None
  {
  }

  /** Insert into a free slot. */
  lemma InsertFree(s: Slot, h: nat, key: string, value: string)
    requires SlotOk(s, h) && s.key == "" && key != "" && HashOf(key) == h
    ensures SlotUpdated(s, Slot(key, value, []), h, key, Some(value))
  {
  }

  /** Update the value of the primary entry. */
  lemma InsertPrimary(s: Slot, h: nat, key: string, value: string)
    requires SlotOk(s, h) && s.key == key && key != ""
    ensures SlotUpdated(s, Slot(key, value, s.collisions), h, key, Some(value))
  {
  }

  /** Update the value of a chain entry. */
  lemma InsertChainUpdate(s: Slot, h: nat, key: string, value: string, idx: int)
    requires SlotOk(s, h) && s.key != "" && s.key != key
    requires 0 <= idx && idx == IndexOf(s.collisions, key)
    ensures SlotUpdated(s, Slot(s.key, s.value, s.collisions[idx := Entry(key, value)]), h, key, Some(value))
  {
    var c := s.collisions;
    var c' := c[idx := Entry(key, value)];
    forall k ensures ChainFind(c', k) == if k == key then Some(value) else ChainFind(c, k) {
      ChainFindUpdate(c, idx, value, k);
    }
    SameKeysOk(s, Slot(s.key, s.value, c'), h);
  }

  /** Replacing chain entries by entries with the same keys keeps the slot
      well formed. */
  lemma SameKeysOk(s: Slot, s': Slot, h: nat)
    requires SlotOk(s, h) && s'.key == s.key && |s'.collisions| == |s.collisions|
    requires forall i :: 0 <= i < |s.collisions| ==> s'.collisions[i].key == s.collisions[i].key
    ensures SlotOk(s', h)
  {
  }

  /** Append a new entry to the chain. */
  lemma InsertChainPush(s: Slot, h: nat, key: string, value: string)
    requires SlotOk(s, h) && s.key != "" && s.key != key && key != "" && HashOf(key) == h
    requires IndexOf(s.collisions, key) == -1
    ensures SlotUpdated(s, Slot(s.key, s.value, s.collisions + [Entry(key, value)]), h, key, Some(value))
  {
    var c := s.collisions;
    forall k ensures ChainFind(c + [Entry(key, value)], k) ==
                     if k == key then Some(value) else ChainFind(c, k) {
      ChainFindPush(c, Entry(key, value), k);
    }
  }

  /** Delete the primary entry by promoting the first chain entry. */
  lemma DeletePromote(s: Slot, h: nat, key: string)
    requires SlotOk(s, h) && s.key == key && key != "" && |s.collisions| > 0
    ensures SlotUpdated(s, Slot(s.collisions[0].key, s.collisions[0].value, s.collisions[1..]), h, key, None)
  {
    var c := s.collisions;
    forall k | k != key && k != c[0].key ensures ChainFind(c[1..], k) == ChainFind(c, k) {
    }
    ChainFindAbsent(c[1..], key);
  }

  /** Delete the primary entry of a slot without collisions. */
  lemma DeleteLast(s: Slot, h: nat, key: string)
    requires SlotOk(s, h) && s.key == key && key != "" && s.collisions == []
    ensures SlotUpdated(s, FreeSlot, h, key, None)
  {
  }

  /** Splice an entry out of the chain. */
  lemma DeleteChain(s: Slot, h: nat, key: string, idx: int)
    requires SlotOk(s, h) && s.key != "" && s.key != key
    requires 0 <= idx && idx == IndexOf(s.collisions, key)
    ensures SlotUpdated(s, Slot(s.key, s.value, s.collisions[..idx] + s.collisions[idx + 1..]), h, key, None)
  {
    var c := s.collisions;
    var c' := c[..idx] + c[idx + 1..];
    SpliceOk(s, h, idx, c');
    forall k | k != key ensures ChainFind(c', k) == ChainFind(c, k) {
      ChainFindRemove(c, idx, k);
    }
    ChainFindAbsent(c', key);
  }

  /** Splicing an entry out of a well-formed slot's chain leaves it well
      formed, and the entry's key is no longer in the chain. */
  lemma SpliceOk(s: Slot, h: nat, idx: int, c': seq<Entry>)
    requires SlotOk(s, h) && 0 <= idx < |s.collisions|
    requires c' == s.collisions[..idx] + s.collisions[idx + 1..]
    ensures SlotOk(Slot(s.key, s.value, c'), h)
    ensures forall j :: 0 <= j < |c'| ==> c'[j].key != s.collisions[idx].key
  {
    var c := s.collisions;
    forall j | 0 <= j < |c'| ensures c'[j] == c[if j < idx then j else j + 1] {
    }
  }

  /** The slots hold exactly the bindings of `m`, each key in the slot it
      hashes to. */
  ghost predicate TableOk(t: seq<Slot>, m: map<string, string>) {
    |t| == TableSize &&
    (forall h :: 0 <= h < TableSize ==> SlotOk(t[h], h)) &&
    (forall k :: SlotFind(t[HashOf(k)], k) == if k in m then Some(m[k]) else None)
  }

  /** Replacing the slot of `key` by an updated slot updates the binding of
      `key` and no other. */
  lemma TableUpdate(t: seq<Slot>, m: map<string, string>, key: string, found: Option<string>, s': Slot)
    requires TableOk(t, m)
    requires SlotUpdated(t[HashOf(key)], s', HashOf(key), key, found)
    ensures TableOk(t[HashOf(key) := s'], if found.Some? then m[key := found.value] else m - {key})
  {
    var t' := t[HashOf(key) := s'];
    var m' := if found.Some? then m[key := found.value] else m - {key};
    forall k ensures SlotFind(t'[HashOf(k)], k) == if k in m' then Some(m'[k]) else None {
      if HashOf(k) == HashOf(key) && k != key {
        assert SlotFind(s', k) == SlotFind(t[HashOf(k)], k);
      }
    }
  }

  /** Removing a key that is not bound leaves the map as it was. */
  lemma RemoveAbsent(m: map<string, string>, key: string)
    requires key !in m
    ensures m - {key} == m
  {
  }

  /** Outcome of a lookup or delete request. */
  datatype Outcome = EmptyKey | NotFound | Found(value: string) | Deleted

  class Table {
    const table: array<Slot>
    /** The key/value pairs the table stores. */
    ghost var Contents: map<string, string>

    ghost predicate Valid()
      reads this, table
    {
      TableOk(table[..], Contents)
    }

    constructor ()
      ensures Valid() && Contents == map[]
    {
      table := new Slot[TableSize](_ => FreeSlot);
      Contents := map[];
    }

    /** Insert or update `key`; an empty key or value is refused and leaves
        the table as it was.  The key ends up in the slot it hashes to. */
    method Insert(key: string, value: string) returns (ok: bool)
      requires Valid()
      modifies this, table
      ensures Valid()
      ensures ok <==> key != "" && value != ""
      ensures ok ==> Contents == old(Contents)[key := value]
      ensures ok ==> SlotFind(table[HashOf(key)], key) == Some(value)
      ensures !ok ==> Contents == old(Contents) && table[..] == old(table[..])
    {
      if key == "" || value == "" {
        return false;
      }
      ok := true;
      var hash := HashFunction(key);
      var s := table[hash];
      var s';
      if s.key == "" {
        s' := Slot(key, value, []);
        InsertFree(s, hash, key, value);
      } else if s.key == key {
        s' := Slot(key, value, s.collisions);
        InsertPrimary(s, hash, key, value);
      } else {
        var idx := IndexOf(s.collisions, key);
        if idx >= 0 {
          s' := Slot(s.key, s.value, s.collisions[idx := Entry(key, value)]);
          InsertChainUpdate(s, hash, key, value, idx);
        } else {
          s' := Slot(s.key, s.value, s.collisions + [Entry(key, value)]);
          InsertChainPush(s, hash, key, value);
        }
      }
      TableUpdate(table[..], Contents, key, Some(value), s');
      table[hash] := s';
      Contents := Contents[key := value];
      assert table[..] == old(table[..])[hash := s'];
    }

    /** Look `key` up: the value it is bound to, or not found. */
    method Lookup(key: string) returns (r: Outcome)
      requires Valid()
      ensures r == if key == "" then EmptyKey
                   else if key in Contents then Found(Contents[key])
                   else NotFound
    {
      if key == "" {
        return EmptyKey;
      }
      var hash := HashFunction(key);
      var s := table[hash];
      assert SlotFind(table[..][hash], key) == if key in Contents then Some(Contents[key]) else None;
      if s.key == "" {
        r := NotFound;
      } else if s.key == key {
        r := Found(s.value);
      } else {
        var found := ChainFind(s.collisions, key);
        r := if found.Some? then Found(found.value) else NotFound;
      }
    }

    /** Delete `key`: a primary entry is replaced by the first chain entry
        (or freed), a chain entry is spliced out. */
    method Delete(key: string) returns (r: Outcome)
      requires Valid()
      modifies this, table
      ensures Valid()
      ensures r == if key == "" then EmptyKey
                   else if key in old(Contents) then Deleted
                   else NotFound
      ensures Contents == old(Contents) - {key}
    {
      if key == "" {
        assert SlotFind(table[..][HashOf(key)], key) == None;
        RemoveAbsent(Contents, key);
        return EmptyKey;
      }
      var hash := HashFunction(key);
      var s := table[hash];
      assert SlotFind(table[..][hash], key) == if key in Contents then Some(Contents[key]) else None;
      var s';
      if s.key == "" {
        RemoveAbsent(Contents, key);
        return NotFound;
      } else if s.key == key {
        if |s.collisions| > 0 {
          s' := Slot(s.collisions[0].key, s.collisions[0].value, s.collisions[1..]);
          DeletePromote(s, hash, key);
        } else {
          s' := FreeSlot;
          DeleteLast(s, hash, key);
        }
      } else {
        var idx := IndexOf(s.collisions, key);
        if idx < 0 {
          assert ChainFind(s.collisions, key) == None;
          RemoveAbsent(Contents, key);
          return NotFound;
        }
        s' := Slot(s.key, s.value, s.collisions[..idx] + s.collisions[idx + 1..]);
        DeleteChain(s, hash, key, idx);
      }
      TableUpdate(table[..], Contents, key, None, s');
      table[hash] := s';
      Contents := Contents - {key};
      assert table[..] == old(table[..])[hash := s'];
      r := Deleted;
    }
  }
}
