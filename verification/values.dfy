/**
  The dynamically typed values of the knowledge base: the nested dictionary
  of scalars, lists and sub-dictionaries that the helpdesk searches, and the
  values its chat transcript stores.
*/
module Values {

  import opened Wrappers

  /** One key/value pair of a dictionary; `seq<Entry>` keeps Python's insertion order. */
  datatype Entry = Entry(key: string, val: Value)

  /**
    Python's `None`, `str`, `int`, `float`, `list` and `dict`, as they occur in
    the knowledge base (floats such as a course's 1.5 credits are kept as reals).
  */
  datatype Value =
    | Null
    | Str(s: string)
    | Int(i: int)
    | Float(f: real)
    | List(items: seq<Value>)
    | Dict(entries: seq<Entry>)

  /**
    Python's `str(v)` of a value. Its formatting of numbers, lists and dicts is
    not part of this model, so every operation that formats a value takes one.
  */
  type Renderer = Value -> string

  /** Python truthiness: `None`, `""`, `0`, `0.0`, `[]` and `{}` are false. */
  predicate Truthy(v: Value) {
    match v
    case Null => false
    case Str(s) => |s| > 0
    case Int(i) => i != 0
    case Float(f) => f != 0.0
    case List(items) => |items| > 0
    case Dict(entries) => |entries| > 0
  }

  /** Number of constructors in a value; the termination measure of every traversal. */
  function Size(v: Value): nat {
    match v
    case List(items) => 1 + ItemsSize(items)
    case Dict(entries) => 1 + EntriesSize(entries)
    case _ => 1
  }

  function ItemsSize(items: seq<Value>): nat {
    if |items| == 0 then 0 else 1 + Size(items[0]) + ItemsSize(items[1..])
  }

  function EntriesSize(es: seq<Entry>): nat {
    if |es| == 0 then 0 else 1 + Size(es[0].val) + EntriesSize(es[1..])
  }

  /** The keys of a dictionary in insertion order. */
  function Keys(es: seq<Entry>): (ks: seq<string>)
    ensures |ks| == |es|
    ensures forall i :: 0 <= i < |es| ==> ks[i] == es[i].key
  {
    if |es| == 0 then [] else [es[0].key] + Keys(es[1..])
  }

  /** `d.get(k)`: the value stored under `k`, looked up from the front. */
  function Get(es: seq<Entry>, k: string): (r: Option<Value>)
    ensures r.Some? <==> k in Keys(es)
  {
    if |es| == 0 then None
    else if es[0].key == k then Some(es[0].val)
    else Get(es[1..], k)
  }

  /**
    A dictionary as Python builds one: no key occurs twice at any level of
    nesting (lists are opaque here, as they are to the knowledge-base flattener).
  */
  predicate WellFormed(es: seq<Entry>)
    decreases EntriesSize(es)
  {
    if |es| == 0 then true
    else
      && es[0].key !in Keys(es[1..])
      && (match es[0].val
          case Dict(sub) => assert Size(es[0].val) == 1 + EntriesSize(sub); WellFormed(sub)
          case _ => true)
      && WellFormed(es[1..])
  }
}
