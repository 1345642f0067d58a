/**
 * JSON values as the plugin receives them from the kernel protocol and from
 * save files, with the Python operations the plugin applies to them:
 * dict.get, `key in value`, `value[key]`, isinstance and truthiness.
 * A dict is the sequence of its items in insertion order; a Python dict never
 * holds a key twice, and lookups take the first item with the key.
 */
module Json {
  import opened Common
  import PyStr

  datatype Json =
    | JNull
    | JBool(b: bool)
    | JInt(i: int)
    | JFloat(f: real)
    | JStr(s: string)
    | JList(items: seq<Json>)
    | JObject(entries: seq<(string, Json)>)

  /** dict.get(key) on a dict's items. */
  function Lookup(entries: seq<(string, Json)>, key: string): (r: Option<Json>)
    ensures r.Some? <==> exists i :: 0 <= i < |entries| && entries[i].0 == key
    ensures r.Some? ==> exists i :: 0 <= i < |entries| && entries[i] == (key, r.value)
    decreases |entries|
  {
    if |entries| == 0 then None
    else if entries[0].0 == key then Some(entries[0].1)
    else Lookup(entries[1..], key)
  }

  /** list(d.keys()) */
  function Keys(entries: seq<(string, Json)>): (r: seq<string>)
    ensures |r| == |entries|
  {
    if |entries| == 0 then [] else [entries[0].0] + Keys(entries[1..])
  }

  /** The keys in the order of the entries. */
  lemma {:induction false} KeysAt(entries: seq<(string, Json)>, i: int)
    requires 0 <= i < |entries|
    ensures Keys(entries)[i] == entries[i].0
    decreases |entries|
  {
    if i > 0 {
      KeysAt(entries[1..], i - 1);
    }
  }

  datatype PyType = DictType | ListType | IntType | BoolType | StrType

  /** isinstance(j, t); a bool is an instance of int as well. */
  predicate IsInstance(j: Json, t: PyType)
  {
    match t
    case DictType => j.JObject?
    case ListType => j.JList?
    case IntType => j.JInt? || j.JBool?
    case BoolType => j.JBool?
    case StrType => j.JStr?
  }

  /** The int value of an instance of int (True is 1, False is 0). */
  function IntValue(j: Json): int
    requires IsInstance(j, IntType)
  {
    if j.JBool? then (if j.b then 1 else 0) else j.i
  }

  /** `key in j` for a str key: dict keys, list elements and substrings;
      anything else is not a container. */
  function HasKey(j: Json, key: string): Result<bool>
  {
    match j
    case JObject(entries) => Ok(Lookup(entries, key).Some?)
    case JList(items) => Ok(JStr(key) in items)
    case JStr(s) => Ok(PyStr.IsSubstring(key, s))
    case _ => Err(TypeError("argument is not iterable"))
  }

  /** j[key] for a str key. */
  function Index(j: Json, key: string): (r: Result<Json>)
    ensures r.Ok? <==> j.JObject? && Lookup(j.entries, key).Some?
    ensures r.Ok? ==> r.value == Lookup(j.entries, key).value
    ensures j.JObject? && r.Err? ==> r.error == KeyError(key)
  {
    match j
    case JObject(entries) =>
      (match Lookup(entries, key)
       case Some(v) => Ok(v)
       case None => Err(KeyError(key)))
    case JList(_) => Err(TypeError("list indices must be integers or slices, not str"))
    case JStr(_) => Err(TypeError("string indices must be integers"))
    case _ => Err(TypeError("object is not subscriptable"))
  }

  /** bool(j) */
  predicate Truthy(j: Json)
  {
    match j
    case JNull => false
    case JBool(b) => b
    case JInt(i) => i != 0
    case JFloat(f) => f != 0.0
    case JStr(s) => |s| > 0
    case JList(items) => |items| > 0
    case JObject(entries) => |entries| > 0
  }
}
