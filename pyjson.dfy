/**
 * JSON column values as SQLAlchemy hands them to Python: `None`, booleans, numbers,
 * strings, lists and dicts. A dict is its entries in insertion order; a decoded document
 * holds each key once.
 */
module PyJson {
  import opened Wrappers

  datatype Json =
    | JNull
    | JBool(b: bool)
    | JNum(x: real)
    | JStr(s: string)
    | JList(items: seq<Json>)
    | JObject(entries: seq<(string, Json)>)

  /** Each key appears once, as in any dict. */
  predicate DistinctKeys(entries: seq<(string, Json)>) {
    forall i, j | 0 <= i < j < |entries| :: entries[i].0 != entries[j].0
  }

  /** `d[key]` when present: the value of the last entry with that key. */
  function Lookup(entries: seq<(string, Json)>, key: string): (r: Option<Json>)
    ensures r.None? <==> forall i | 0 <= i < |entries| :: entries[i].0 != key
    ensures r.Some? ==> exists i | 0 <= i < |entries| :: entries[i] == (key, r.value)
    decreases |entries|
  {
    if entries == [] then None
    else if entries[|entries| - 1].0 == key then Some(entries[|entries| - 1].1)
    else Lookup(entries[..|entries| - 1], key)
  }

  /** With distinct keys, the entry at `i` is what its key looks up. */
  lemma {:induction false} LookupAt(entries: seq<(string, Json)>, i: nat)
    requires DistinctKeys(entries) && i < |entries|
    ensures Lookup(entries, entries[i].0) == Some(entries[i].1)
    decreases |entries|
  {
    if i < |entries| - 1 {
      LookupAt(entries[..|entries| - 1], i);
    }
  }

  /** `d.get(key, default)`. */
  function Get(entries: seq<(string, Json)>, key: string, default: Json): Json {
    match Lookup(entries, key)
    case Some(v) => v
    case None => default
  }

  /** Python's `sum(d.values())`: booleans count as 0 and 1; any other non-number raises (none). */
  function SumValues(entries: seq<(string, Json)>): (r: Option<real>)
    ensures r.None? <==> exists i | 0 <= i < |entries| :: !(entries[i].1.JNum? || entries[i].1.JBool?)
    decreases |entries|
  {
    if entries == [] then Some(0.0)
    else
      var v := entries[|entries| - 1].1;
      match SumValues(entries[..|entries| - 1])
      case None => None
      case Some(t) =>
        match v
        case JNum(x) => Some(t + x)
        case JBool(b) => Some(t + if b then 1.0 else 0.0)
        case _ => None
  }

  /** `isinstance(value, dict)` and the dict is not empty: the `d and isinstance(d, dict)` test. */
  predicate IsNonEmptyDict(v: Json) {
    v.JObject? && v.entries != []
  }
}
