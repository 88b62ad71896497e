/** Parsed JSON values as the Python code sees them after `json.loads`:
    `None`, booleans, numbers, strings, lists and dicts.  A dict is an
    association list in insertion order with distinct keys, which is how
    a Python dict iterates.  Numbers are integers only. */
module Json {
  import opened Wrappers
  import Text

  datatype Json =
    | JNull
    | JBool(b: bool)
    | JNum(n: int)
    | JStr(s: string)
    | JArr(items: seq<Json>)
    | JObj(fields: seq<(string, Json)>)

  /** The keys in iteration order. */
  function Keys(fields: seq<(string, Json)>): (ks: seq<string>)
    ensures |ks| == |fields|
  {
    if fields == [] then [] else [fields[0].0] + Keys(fields[1..])
  }

  /** No key occurs twice. */
  predicate DistinctKeys(fields: seq<(string, Json)>) {
    fields == [] || (fields[0].0 !in Keys(fields[1..]) && DistinctKeys(fields[1..]))
  }

  /** `d.get(key)`: the value stored under `key`, if any. */
  function Get(fields: seq<(string, Json)>, key: string): (r: Option<Json>)
    ensures r.Some? <==> key in Keys(fields)
  {
    if fields == [] then None
    else if fields[0].0 == key then Some(fields[0].1)
    else Get(fields[1..], key)
  }

  /** `d[key] = v`: overwrites in place when the key exists, else appends. */
  function Set(fields: seq<(string, Json)>, key: string, v: Json): (r: seq<(string, Json)>)
    ensures |r| == |fields| || |r| == |fields| + 1
  {
    if fields == [] then [(key, v)]
    else if fields[0].0 == key then [(key, v)] + fields[1..]
    else [fields[0]] + Set(fields[1..], key, v)
  }

  /** After `d[key] = v`, reading `key` gives `v` and every other key reads
      as before. */
  lemma {:induction false} SetGet(fields: seq<(string, Json)>, key: string, v: Json, other: string)
    ensures Get(Set(fields, key, v), key) == Some(v)
    ensures other != key ==> Get(Set(fields, key, v), other) == Get(fields, other)
  {
    if fields != [] && fields[0].0 != key {
      SetGet(fields[1..], key, v, other);
      assert Set(fields, key, v)[1..] == Set(fields[1..], key, v);
    } else if fields != [] {
      assert Set(fields, key, v)[1..] == fields[1..];
    }
  }

  /** Existing keys keep their positions; a new key goes last. */
  lemma {:induction false} SetKeys(fields: seq<(string, Json)>, key: string, v: Json)
    ensures key in Keys(fields) ==> Keys(Set(fields, key, v)) == Keys(fields)
    ensures key !in Keys(fields) ==> Keys(Set(fields, key, v)) == Keys(fields) + [key]
  {
    if fields != [] && fields[0].0 != key {
      SetKeys(fields[1..], key, v);
      assert Set(fields, key, v)[1..] == Set(fields[1..], key, v);
      assert Keys(fields) == [fields[0].0] + Keys(fields[1..]);
      assert ([fields[0].0] + Keys(fields[1..])) + [key] == [fields[0].0] + (Keys(fields[1..]) + [key]);
    } else if fields != [] {
      assert Set(fields, key, v)[1..] == fields[1..];
    }
  }

  /** `d[key] = v` keeps the keys distinct. */
  lemma {:induction false} SetDistinct(fields: seq<(string, Json)>, key: string, v: Json)
    requires DistinctKeys(fields)
    ensures DistinctKeys(Set(fields, key, v))
  {
    if fields != [] && fields[0].0 != key {
      SetDistinct(fields[1..], key, v);
      SetKeys(fields[1..], key, v);
      assert Set(fields, key, v)[1..] == Set(fields[1..], key, v);
    } else if fields != [] {
      assert Set(fields, key, v)[1..] == fields[1..];
    }
  }

  /** A Python list of strings as a JSON array. */
  function StrArray(xs: seq<string>): (j: Json)
    ensures j.JArr? && |j.items| == |xs| && forall k :: 0 <= k < |xs| ==> j.items[k] == JStr(xs[k])
  {
    JArr(seq(|xs|, k requires 0 <= k < |xs| => JStr(xs[k])))
  }

  /** One line of an NDJSON output: an input line copied as it was, or a
      record to be serialised. */
  datatype OutLine = Verbatim(line: string) | Record(fields: seq<(string, Json)>)

  /** Python truthiness of a JSON value (`bool(x)`). */
  predicate Truthy(j: Json) {
    match j
    case JNull => false
    case JBool(b) => b
    case JNum(n) => n != 0
    case JStr(s) => s != ""
    case JArr(items) => items != []
    case JObj(fields) => fields != []
  }

  /** Python's `repr` of a parsed JSON value, with strings quoted by `'`
      and no escaping. */
  function Repr(j: Json): string
    decreases j, 1
  {
    match j
    case JStr(s) => "'" + s + "'"
    case _ => PyStr(j)
  }

  /** Python's `str(x)` of a parsed JSON value. */
  function PyStr(j: Json): string
    decreases j, 0
  {
    match j
    case JNull => "None"
    case JBool(b) => if b then "True" else "False"
    case JNum(n) => if n < 0 then "-" + Text.NatToString(-n) else Text.NatToString(n)
    case JStr(s) => s
    case JArr(items) => "[" + ReprList(items) + "]"
    case JObj(fields) => "{" + ReprFields(fields) + "}"
  }

  function ReprList(items: seq<Json>): string
    decreases items
  {
    if items == [] then ""
    else Repr(items[0]) + (if |items| == 1 then "" else ", " + ReprList(items[1..]))
  }

  function ReprFields(fields: seq<(string, Json)>): string
    decreases fields
  {
    if fields == [] then ""
    else
      assert fields[0] in fields;
      assert fields[0].1 < fields[0];
      "'" + fields[0].0 + "': " + Repr(fields[0].1) + (if |fields| == 1 then "" else ", " + ReprFields(fields[1..]))
  }
}
