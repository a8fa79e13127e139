/** A JSON document as `json.load` returns it, and the two dictionary
    operations the configuration manager applies to such documents:
    `d.get(key, default)` and iterating over a value whose elements are then
    asked for a key. Numbers are integers only. */
module Json {
  import opened Py

  datatype Json =
    | JNull
    | JBool(b: bool)
    | JInt(i: int)
    | JStr(s: string)
    | JArr(items: seq<Json>)
    | JObj(fields: map<string, Json>)

  /** A stored scalar as `json.dump` writes it. */
  function FromValue(v: Value): Json {
    match v
    case Null => JNull
    case Int(i) => JInt(i)
    case Text(s) => JStr(s)
  }

  /** `d.get(key, default)`: only a dict has `.get`. */
  function Get(d: Json, key: string, default: Json): (r: Result<Json, Exception>)
    ensures r.Ok? <==> d.JObj?
    ensures d.JObj? && key in d.fields ==> r == Ok(d.fields[key])
    ensures d.JObj? && key !in d.fields ==> r == Ok(default)
  {
    match d
    case JObj(m) => Ok(if key in m then m[key] else default)
    case _ => Err(AttributeError)
  }

  /** `for x in v:` where the loop body starts with `x.get(...)`. A list
      yields its items. A string yields one-character strings and a dict its
      keys, and `.get` on a string raises AttributeError, so either is
      accepted only when empty. Null, booleans and numbers are not
      iterable. */
  function ElementsForGet(v: Json): (r: Result<seq<Json>, Exception>)
    ensures v.JArr? ==> r == Ok(v.items)
    ensures r.Ok? && !v.JArr? ==> r.value == []
  {
    match v
    case JArr(xs) => Ok(xs)
    case JStr(s) => if s == "" then Ok([]) else Err(AttributeError)
    case JObj(m) => if m == map[] then Ok([]) else Err(AttributeError)
    case _ => Err(TypeError)
  }

  /** `str(v)` as an f-string formats a scalar: a string as itself, null as
      "None", booleans as "True"/"False", an integer in decimal. Lists and
      dicts print as Python literals whose key order a map does not keep,
      so they have no rendering here. */
  function ScalarStr(v: Json): (r: Option<string>)
    ensures r.None? <==> v.JArr? || v.JObj?
    ensures v.JStr? ==> r == Some(v.s)
  {
    match v
    case JNull => Some("None")
    case JBool(b) => Some(if b then "True" else "False")
    case JInt(i) => Some(Decimal(i))
    case JStr(s) => Some(s)
    case _ => None
  }
}
