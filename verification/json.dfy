/** The Python values the pipeline handles: what `json.loads` returns for a
    model reply and what yt-dlp returns as an info dictionary. Python's
    truthiness, `dict.get` and `str()` are defined on them. */
module Json {
  import opened Outcomes
  import opened Text

  /** A JSON-shaped Python value. A dictionary is its list of (key, value)
      entries in insertion order; its keys are distinct. */
  datatype Json =
    | Null
    | Bool(b: bool)
    | Int(i: int)
    | Str(s: string)
    | Arr(items: seq<Json>)
    | Obj(fields: seq<(string, Json)>)

  /** A Python dictionary with string keys. */
  type Dict = seq<(string, Json)>

  /** Python's `bool(v)`. */
  predicate Truthy(v: Json) {
    match v
    case Null => false
    case Bool(b) => b
    case Int(i) => i != 0
    case Str(s) => s != ""
    case Arr(items) => items != []
    case Obj(fields) => fields != []
  }

  /** `key in d`. */
  predicate HasKey(d: Dict, key: string) {
    exists k :: 0 <= k < |d| && d[k].0 == key
  }

  /** `d.get(key, default)`: the value stored under `key`, or `default` when
      `d` has no such key. */
  function Get(d: Dict, key: string, default: Json): (r: Json)
    ensures HasKey(d, key) ==> (key, r) in d
    ensures !HasKey(d, key) ==> r == default
  {
    if d == [] then default
    else if d[0].0 == key then d[0].1
    else Get(d[1..], key, default)
  }

  /** The default plays no part when the key is present. */
  lemma {:induction false} GetIgnoresDefault(d: Dict, key: string, a: Json, b: Json)
    requires HasKey(d, key)
    ensures Get(d, key, a) == Get(d, key, b)
    decreases |d|
  {
    if d[0].0 != key {
      var k :| 0 <= k < |d| && d[k].0 == key;
      assert d[1..][k - 1].0 == key;
      GetIgnoresDefault(d[1..], key, a, b);
    }
  }

  /** The values a `for` loop over `v` visits: a list's items, a dictionary's
      keys, a string's characters; numbers and booleans are not iterable. */
  function Elements(v: Json): (r: Result<seq<Json>>)
    ensures r.Ok? ==> (|r.value| > 0 <==> Truthy(v))
    ensures r.Raised? <==> v.Null? || v.Bool? || v.Int?
  {
    match v
    case Arr(items) => Ok(items)
    case Obj(fields) => Ok(seq(|fields|, k requires 0 <= k < |fields| => Str(fields[k].0)))
    case Str(s) => Ok(seq(|s|, k requires 0 <= k < |s| => Str([s[k]])))
    case _ => Raised(TypeError)
  }

  /** The name of `type(v)`, as Python's error messages spell it. */
  function TypeName(v: Json): string {
    match v
    case Null => "NoneType"
    case Bool(_) => "bool"
    case Int(_) => "int"
    case Str(_) => "str"
    case Arr(_) => "list"
    case Obj(_) => "dict"
  }

  /** Python's `str(v)`. A string nested inside a list or dictionary is
      rendered between single quotes. */
  function PyStr(v: Json): string
    decreases v, 0
  {
    match v
    case Null => "None"
    case Bool(b) => if b then "True" else "False"
    case Int(i) => IntToString(i)
    case Str(s) => s
    case Arr(items) =>
      "[" + Join(seq(|items|, k requires 0 <= k < |items| => Repr(items[k])), ", ") + "]"
    case Obj(fields) =>
      "{" + Join(seq(|fields|, k requires 0 <= k < |fields| => FieldRepr(fields, k, v)), ", ") + "}"
  }

  /** Python's `repr(v)`, as it appears inside a rendered list or dictionary. */
  function Repr(v: Json): string
    decreases v, 1
  {
    match v
    case Str(s) => "'" + s + "'"
    case _ => PyStr(v)
  }

  /** The rendering `'key': value` of entry `k` of a dictionary. */
  function FieldRepr(fields: seq<(string, Json)>, k: nat, v: Json): string
    requires k < |fields| && v == Obj(fields)
    decreases v, 0, k
  {
    assert fields[k].1 < fields[k] < v;
    "'" + fields[k].0 + "': " + Repr(fields[k].1)
  }
}
