/** Parsed JSON payloads as the Python scrapers see them after
    `response.json()`: `None`, booleans, integers, strings, lists and
    dicts.  A dict is the sequence of its entries in insertion order, as
    Python's `dict.items()` yields them. */
module JsonValue {
  import opened Wrappers
  import opened Text

  datatype Json =
    | JNull
    | JBool(b: bool)
    | JNum(n: int)
    | JStr(s: string)
    | JArr(items: seq<Json>)
    | JObj(fields: seq<(string, Json)>)

  /** Python truthiness: `None`, `False`, `0`, `''`, `[]` and `{}` are false. */
  predicate Truthy(j: Json) {
    match j
    case JNull => false
    case JBool(b) => b
    case JNum(n) => n != 0
    case JStr(s) => s != []
    case JArr(a) => a != []
    case JObj(o) => o != []
  }

  /** `key in d`. */
  predicate HasKey(fields: seq<(string, Json)>, key: string) {
    exists i :: 0 <= i < |fields| && fields[i].0 == key
  }

  /** The position of the first entry at or after `i` with that key, or
      `|fields|`. */
  function KeyIndex(fields: seq<(string, Json)>, key: string, i: nat): (k: nat)
    requires i <= |fields|
    ensures i <= k <= |fields| && (k < |fields| ==> fields[k].0 == key)
    ensures forall j :: i <= j < k ==> fields[j].0 != key
    decreases |fields| - i
  {
    if i == |fields| || fields[i].0 == key then i else KeyIndex(fields, key, i + 1)
  }

  /** `d.get(key)`: the value of the first entry with that key. */
  function Get(fields: seq<(string, Json)>, key: string): (r: Option<Json>)
    ensures r.Some? <==> HasKey(fields, key)
    ensures r.Some? ==> exists i :: 0 <= i < |fields| && fields[i] == (key, r.value)
  {
    var k := KeyIndex(fields, key, 0);
    if k < |fields| then
      assert fields[k] == (key, fields[k].1);
      Some(fields[k].1)
    else None
  }

  /** `d.get(key, default)`. */
  function GetOr(fields: seq<(string, Json)>, key: string, default: Json): (r: Json)
    ensures !HasKey(fields, key) ==> r == default
    ensures HasKey(fields, key) ==> Some(r) == Get(fields, key)
  {
    Get(fields, key).GetOr(default)
  }

  /** `d[key] = v`: replaces the value of an existing key in place and
      otherwise appends a new entry. */
  function Set(fields: seq<(string, Json)>, key: string, v: Json): (r: seq<(string, Json)>)
    ensures Get(r, key) == Some(v)
    ensures forall k :: k != key ==> Get(r, k) == Get(fields, k)
  {
    if fields == [] then [(key, v)]
    else if fields[0].0 == key then
      assert fields == [fields[0]] + fields[1..];
      GetCons((key, v), fields[1..], key);
      forall k | k != key ensures Get([(key, v)] + fields[1..], k) == Get(fields, k) {
        GetCons(fields[0], fields[1..], k);
        GetCons((key, v), fields[1..], k);
      }
      [(key, v)] + fields[1..]
    else
      assert fields == [fields[0]] + fields[1..];
      var rest := Set(fields[1..], key, v);
      GetCons(fields[0], rest, key);
      forall k | k != key ensures Get([fields[0]] + rest, k) == Get(fields, k) {
        GetCons(fields[0], rest, k);
        GetCons(fields[0], fields[1..], k);
      }
      [fields[0]] + rest
  }

  /** A lookup sees the first entry before the rest. */
  lemma GetCons(e: (string, Json), rest: seq<(string, Json)>, k: string)
    ensures Get([e] + rest, k) == if e.0 == k then Some(e.1) else Get(rest, k)
  {
    if e.0 != k {
      KeyIndexShift(e, rest, k, 0);
    }
  }

  lemma {:induction false} KeyIndexShift(e: (string, Json), rest: seq<(string, Json)>, k: string, i: nat)
    requires i <= |rest|
    ensures KeyIndex([e] + rest, k, i + 1) == KeyIndex(rest, k, i) + 1
    decreases |rest| - i
  {
    var s := [e] + rest;
    assert i < |rest| ==> s[i + 1] == rest[i];
    if i < |rest| && rest[i].0 != k {
      KeyIndexShift(e, rest, k, i + 1);
    }
  }

  /** `a or b or c ...` over `d.get(k)` for each key in turn: the first
      truthy value, or nothing when every one is falsy or absent. */
  function FirstTruthy(fields: seq<(string, Json)>, keys: seq<string>): (r: Option<Json>)
    ensures r.Some? ==> Truthy(r.value)
    ensures r.Some? <==> exists i :: 0 <= i < |keys| && Get(fields, keys[i]).Some? && Truthy(Get(fields, keys[i]).value)
    ensures keys != [] && Get(fields, keys[0]).Some? && Truthy(Get(fields, keys[0]).value)
            ==> r == Get(fields, keys[0])
  {
    if keys == [] then None
    else
      var v := Get(fields, keys[0]);
      if v.Some? && Truthy(v.value) then v
      else
        var r := FirstTruthy(fields, keys[1..]);
        assert forall i :: 1 <= i < |keys| ==> keys[i] == keys[1..][i - 1];
        r
  }

  /** Python `repr()` of a parsed value; strings are shown between single
      quotes without escaping. */
  function Repr(j: Json): (r: string)
    ensures |r| >= 1
  {
    match j
    case JStr(s) => "'" + s + "'"
    case JArr(a) => "[" + Join(seq(|a|, i requires 0 <= i < |a| => Repr(a[i])), ", ") + "]"
    case JObj(o) =>
      "{" + Join(seq(|o|, i requires 0 <= i < |o| => "'" + o[i].0 + "': " + Repr(o[i].1)), ", ") + "}"
    case _ => Scalar(j)
  }

  /** How `str()` and `repr()` both render `None`, booleans and integers. */
  function Scalar(j: Json): (r: string)
    ensures |r| >= 1
  {
    match j
    case JNull => "None"
    case JBool(b) => if b then "True" else "False"
    case JNum(n) => Decimal(n)
    case _ => "?"
  }

  /** Python `str()`: a string is itself, everything else its `repr`. */
  function Str(j: Json): (r: string)
    ensures j.JStr? ==> r == j.s
    ensures j.JNum? ==> r == Decimal(j.n)
  {
    match j
    case JStr(s) => s
    case JArr(_) => Repr(j)
    case JObj(_) => Repr(j)
    case _ => Scalar(j)
  }

  /** An optional sign followed by one or more decimal digits. */
  function SignedDigits(s: string): (r: Option<int>)
    ensures r.Some? && s != [] && IsDigit(s[0]) ==> r.value >= 0
  {
    if s != [] && (s[0] == '+' || s[0] == '-') then
      var d := s[1..];
      if d != [] && forall i :: 0 <= i < |d| ==> IsDigit(d[i]) then
        Some(if s[0] == '-' then -(DigitsValue(d) as int) else DigitsValue(d))
      else None
    else if s != [] && forall i :: 0 <= i < |s| ==> IsDigit(s[i]) then Some(DigitsValue(s))
    else None
  }

  /** Python `int(x)`: integers as they are, `True`/`False` as 1/0, a
      string holding a signed decimal (surrounding whitespace allowed) as
      its value; anything else raises (`None`). */
  function IntOf(j: Json): (r: Option<int>)
    ensures j.JNum? ==> r == Some(j.n)
    ensures j.JNull? || j.JArr? || j.JObj? ==> r == None
  {
    match j
    case JNum(n) => Some(n)
    case JBool(b) => Some(if b then 1 else 0)
    case JStr(s) => SignedDigits(Strip(s))
    case _ => None
  }

  /** `for x in j`: a list yields its items, a dict its keys and a string
      its one-character strings; iterating anything else raises (`None`). */
  function Iterate(j: Json): (r: Option<seq<Json>>)
    ensures r.Some? <==> j.JArr? || j.JObj? || j.JStr?
    ensures j.JArr? ==> r == Some(j.items)
    ensures j.JObj? ==> |r.value| == |j.fields| && forall i :: 0 <= i < |j.fields| ==> r.value[i] == JStr(j.fields[i].0)
    ensures j.JStr? ==> |r.value| == |j.s| && forall i :: 0 <= i < |j.s| ==> r.value[i] == JStr([j.s[i]])
  {
    match j
    case JArr(a) => Some(a)
    case JObj(o) => Some(seq(|o|, i requires 0 <= i < |o| => JStr(o[i].0)))
    case JStr(s) => Some(seq(|s|, i requires 0 <= i < |s| => JStr([s[i]])))
    case _ => None
  }

  /** The value of a number in arithmetic and comparisons with integers:
      booleans count as 0 and 1; anything else raises (`None`). */
  function Number(j: Json): (r: Option<int>)
    ensures r.Some? <==> j.JNum? || j.JBool?
    ensures j.JNum? ==> r == Some(j.n)
  {
    match j
    case JNum(n) => Some(n)
    case JBool(b) => Some(if b then 1 else 0)
    case _ => None
  }
}
