/** Decoded JSON values as the program sees them after `resp.json()`, together
    with the parts of Python's semantics the program relies on: truthiness,
    `dict.get` and the `set(...)` constructor. */
module Json {

  import opened Options

  /** A decoded JSON document: `None`, `bool`, a number, `str`, `list` or `dict`. */
  datatype Json =
    | JNull
    | JBool(b: bool)
    | JNum(n: real)
    | JStr(s: string)
    | JArray(items: seq<Json>)
    | JObject(fields: map<string, Json>)

  /** Python truthiness: `None`, `False`, zero and empty containers are falsy. */
  predicate Truthy(j: Json)
  {
    match j
    case JNull => false
    case JBool(b) => b
    case JNum(n) => n != 0.0
    case JStr(s) => s != ""
    case JArray(items) => items != []
    case JObject(fields) => fields != map[]
  }

  /** `obj.get(key)`: the field, or `None` when the key is absent. */
  function Get(obj: map<string, Json>, key: string): Json
  {
    if key in obj then obj[key] else JNull
  }

  /** Values Python can put in a set: lists and dicts are unhashable. */
  predicate Hashable(j: Json)
  {
    !j.JArray? && !j.JObject?
  }

  /** `set(j)`: the elements a Python `set` built from `j` holds, or `None`
      where the constructor raises `TypeError` (a number, a bool, `None`, or a
      list holding a list or a dict). A dict contributes its keys and a string
      its one-character substrings. */
  function PySet(j: Json): (r: Option<set<Json>>)
    ensures j.JArray? ==> (r.Some? <==> forall i :: 0 <= i < |j.items| ==> Hashable(j.items[i]))
    ensures j.JArray? && r.Some? ==> forall x :: x in r.value <==> x in j.items
    ensures j.JObject? ==> r.Some? && forall x :: x in r.value <==> x.JStr? && x.s in j.fields
    ensures j.JStr? ==> r == Some(CharSet(j.s))
    ensures j.JNull? || j.JBool? || j.JNum? ==> r.None?
  {
    match j
    case JArray(items) =>
      if forall i :: 0 <= i < |items| ==> Hashable(items[i]) then Some(set x | x in items) else None
    case JObject(fields) => Some(set k | k in fields :: JStr(k))
    case JStr(s) => Some(CharSet(s))
    case _ => None
  }

  /** The one-character strings of `s`, as `set(s)` gives them. */
  function CharSet(s: string): (r: set<Json>)
    ensures |r| <= |s|
    ensures forall x :: x in r <==> exists i :: 0 <= i < |s| && x == JStr([s[i]])
  {
    if s == [] then {} else {JStr([s[0]])} + CharSet(s[1..])
  }
}
