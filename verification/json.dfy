/**
 A JSON value as the server's request handlers see it after `json.loads`, with
 the two Python built-ins the handlers apply to such values: truthiness (the
 `if not x` guards) and `len`. Arrays and objects keep only their size, which is
 all the handlers look at.
 */
module Json {
  import opened Options

  datatype Json = JStr(s: string) | JNum(n: real) | JBool(b: bool) | JNull | JArray(size: nat) | JObject(size: nat)

  /** A parsed request body: a JSON object, each key present once. */
  type Object = map<string, Json>

  /** Python truthiness: the empty string, zero, `False`, `None` and empty containers are false. */
  predicate Truthy(v: Json) {
    match v
    case JStr(s) => s != ""
    case JNum(n) => n != 0.0
    case JBool(b) => b
    case JNull => false
    case JArray(k) => k > 0
    case JObject(k) => k > 0
  }

  /** Python `len(v)`: defined on strings, lists and dicts; `None` stands for the `TypeError` it raises otherwise. */
  function Len(v: Json): (r: Option<nat>)
    ensures r.Some? <==> v.JStr? || v.JArray? || v.JObject?
  {
    match v
    case JStr(s) => Some(|s|)
    case JArray(k) => Some(k)
    case JObject(k) => Some(k)
    case _ => None
  }

  /** For every value that has a length, it is truthy exactly when that length is not zero. */
  lemma LenAgreesWithTruthy(v: Json)
    requires Len(v).Some?
    ensures Truthy(v) <==> Len(v).value > 0
  {
  }

  /** Python `d.get(key, default)`. */
  function Get(d: Object, key: string, default: Json): (r: Json)
    ensures key in d ==> r == d[key]
    ensures key !in d ==> r == default
  {
    if key in d then d[key] else default
  }

  /** A string field read with a string default: `Some` text when it is a string, `None` for any other JSON type. */
  function GetText(d: Object, key: string, default: string): (r: Option<string>)
    ensures key !in d ==> r == Some(default)
    ensures key in d ==> (r.Some? <==> d[key].JStr?)
    ensures key in d && r.Some? ==> d[key] == JStr(r.value)
  {
    match Get(d, key, JStr(default))
    case JStr(s) => Some(s)
    case _ => None
  }
}
