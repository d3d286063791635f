/**
 * Values decoded from JSON, and Python's dictionary helpers over them.
 * Python dictionaries are ordered, Dafny maps are not; nothing modelled here
 * depends on the key order.
 */
module Json {
  import opened Wrappers

  datatype Json =
    | JNull
    | JBool(b: bool)
    | JInt(i: int)
    | JReal(r: real)
    | JStr(s: string)
    | JList(items: seq<Json>)
    | JObj(fields: map<string, Json>)

  type Dict = map<string, Json>

  /** `d.get(key, default)` */
  function Get(d: Dict, key: string, default: Json): Json
  {
    if key in d then d[key] else default
  }

  /** Python truthiness of a decoded value. */
  predicate Truthy(j: Json)
  {
    match j
    case JNull => false
    case JBool(b) => b
    case JInt(i) => i != 0
    case JReal(r) => r != 0.0
    case JStr(s) => s != ""
    case JList(items) => items != []
    case JObj(fields) => fields != map[]
  }

  /** All the elements of `xs` are dictionaries. */
  predicate AllDicts(xs: seq<Json>)
  {
    forall k :: 0 <= k < |xs| ==> xs[k].JObj?
  }

  function Fields(xs: seq<Json>): (ds: seq<Dict>)
    requires AllDicts(xs)
    ensures |ds| == |xs|
    ensures forall k :: 0 <= k < |xs| ==> xs[k] == JObj(ds[k])
  {
    if xs == [] then [] else [xs[0].fields] + Fields(xs[1..])
  }

  /**
   * The dictionaries a Python loop `for item in j: item.get(...)` visits, or
   * None when that loop raises: iterating a string or a dictionary yields
   * strings (which have no `.get`), and any other scalar is not iterable.
   * Only an empty string or an empty dictionary gets through, with no items.
   */
  function DictItems(j: Json): Option<seq<Dict>>
  {
    match j
    case JList(xs) => if AllDicts(xs) then Some(Fields(xs)) else None
    case JStr(s) => if s == "" then Some([]) else None
    case JObj(m) => if m == map[] then Some([]) else None
    case _ => None
  }
}
