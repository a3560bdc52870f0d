/** The value a JSON (or YAML safe_load) parser hands to Python code, together
    with the three pieces of Python semantics the core applies to such values:
    truthiness, `dict.get(key, default)` and what a `for` loop visits. */
module JsonModel {
  import opened Wrappers

  /** A parsed document. Objects keep their key order, as Python dicts do. */
  datatype Json =
    | JNull
    | JBool(b: bool)
    | JNum(n: real)
    | JStr(s: string)
    | JArr(elems: seq<Json>)
    | JObj(fields: seq<(string, Json)>)

  /** Python truthiness: None, False, zero and empty containers are false. */
  predicate Truthy(v: Json)
  {
    match v
    case JNull => false
    case JBool(b) => b
    case JNum(n) => n != 0.0
    case JStr(s) => s != ""
    case JArr(xs) => xs != []
    case JObj(fs) => fs != []
  }

  /** Exactly six values are falsy. */
  lemma FalsyValues(v: Json)
    ensures !Truthy(v) <==> v in {JNull, JBool(false), JNum(0.0), JStr(""), JArr([]), JObj([])}
  {
  }

  /** `d.get(key, default)` on a dict given as its list of fields: the value
      stored under the first field with that key, or `default`. */
  function Get(fields: seq<(string, Json)>, key: string, default: Json): (v: Json)
    ensures (forall i :: 0 <= i < |fields| ==> fields[i].0 != key) ==> v == default
    ensures v != default ==> exists i :: 0 <= i < |fields| && fields[i].0 == key && fields[i].1 == v
  {
    if fields == [] then default
    else if fields[0].0 == key then fields[0].1
    else Get(fields[1..], key, default)
  }

  /** A key that is present gives the value of its first field. */
  lemma {:induction false} GetFirstMatch(fields: seq<(string, Json)>, key: string, default: Json, i: nat)
    requires i < |fields| && fields[i].0 == key
    requires forall j :: 0 <= j < i ==> fields[j].0 != key
    ensures Get(fields, key, default) == fields[i].1
    decreases i
  {
    if i > 0 {
      assert fields[0].0 != key;
      GetFirstMatch(fields[1..], key, default, i - 1);
    }
  }

  /** The elements `for x in v` visits, or None where iterating `v` raises
      TypeError: a list gives its elements, a string its characters, a dict
      its keys; None, booleans and numbers are not iterable. */
  function Iterated(v: Json): (r: Option<seq<Json>>)
    ensures r.Some? <==> (v.JArr? || v.JStr? || v.JObj?)
  {
    match v
    case JArr(xs) => Some(xs)
    case JStr(s) => Some(seq(|s|, i requires 0 <= i < |s| => JStr([s[i]])))
    case JObj(fs) => Some(seq(|fs|, i requires 0 <= i < |fs| => JStr(fs[i].0)))
    case _ => None
  }
}
