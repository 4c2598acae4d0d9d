/**
 * The Python values the tool handles besides strings: the exceptions that
 * can end a command, and decoded JSON, with the meaning Python gives to
 * `key in v`, `v[key]`, `for x in v` and `str(v)` on them.
 */
module PyValues {
  import opened Basics
  import opened Text

  /** What a command can raise. `Raised` is a plain `Exception(message)`. */
  datatype Error =
    | Raised(message: string)
    | KeyError(key: string)
    | TypeError
    | AttributeError(name: string)
    | UnboundLocalError(name: string)
    | FileNotFound(path: string)

  /** A value as `json.loads` returns it; an object keeps its keys in document order. */
  datatype Json =
    | JNull
    | JBool(b: bool)
    | JNumber(n: int)
    | JString(s: string)
    | JArray(items: seq<Json>)
    | JObject(fields: seq<(string, Json)>)

  /** The value stored under `key` in an object's fields. */
  function Field(fields: seq<(string, Json)>, key: string): (r: Option<Json>)
    ensures r.Some? <==> exists i :: 0 <= i < |fields| && fields[i].0 == key
    ensures r.Some? ==> exists i :: 0 <= i < |fields| && fields[i] == (key, r.value)
  {
    if fields == [] then None
    else if fields[0].0 == key then Some(fields[0].1)
    else
      var r := Field(fields[1..], key);
      assert forall i :: 0 < i < |fields| ==> fields[i] == fields[1..][i - 1];
      r
  }

  /** Python's `key in v` for a string `key`. */
  function Contains(v: Json, key: string): (r: Result<bool, Error>)
    ensures v.JObject? ==> r == Ok(Field(v.fields, key).Some?)
    ensures v.JArray? ==> r == Ok(JString(key) in v.items)
    ensures v.JString? ==> r == Ok(HasSubstring(v.s, key))
    ensures r.Err? <==> v.JNull? || v.JBool? || v.JNumber?
    ensures r.Err? ==> r.error == TypeError
  {
    match v
    case JObject(fields) => Ok(Field(fields, key).Some?)
    case JArray(items) => Ok(JString(key) in items)
    case JString(s) => Ok(HasSubstring(s, key))
    case _ => Err(TypeError)
  }

  /** Python's `v[key]` for a string `key`: only an object can be indexed by a string. */
  function Index(v: Json, key: string): (r: Result<Json, Error>)
    ensures r.Ok? <==> v.JObject? && Field(v.fields, key).Some?
    ensures v.JObject? && Field(v.fields, key).None? ==> r == Err(KeyError(key))
    ensures !v.JObject? ==> r == Err(TypeError)
    ensures r.Ok? ==> r.value == Field(v.fields, key).value
  {
    match v
    case JObject(fields) =>
      (match Field(fields, key)
       case Some(x) => Ok(x)
       case None => Err(KeyError(key)))
    case _ => Err(TypeError)
  }

  /** What `for x in v` visits: an array's items, an object's keys, a string's characters. */
  function Items(v: Json): (r: Result<seq<Json>, Error>)
    ensures v.JArray? ==> r == Ok(v.items)
    ensures v.JObject? ==> r.Ok? && |r.value| == |v.fields| && forall i :: 0 <= i < |v.fields| ==> r.value[i] == JString(v.fields[i].0)
    ensures r.Err? <==> v.JNull? || v.JBool? || v.JNumber?
    ensures r.Err? ==> r.error == TypeError
  {
    match v
    case JArray(items) => Ok(items)
    case JObject(fields) => Ok(seq(|fields|, i requires 0 <= i < |fields| => JString(fields[i].0)))
    case JString(s) => Ok(seq(|s|, i requires 0 <= i < |s| => JString([s[i]])))
    case _ => Err(TypeError)
  }

  /** `str(v)` as `format` writes it; a string is written as it is. */
  function Str(v: Json): (r: string)
    ensures v.JString? ==> r == v.s
  {
    match v
    case JNull => "None"
    case JBool(b) => if b then "True" else "False"
    case JNumber(n) => IntToString(n)
    case JString(s) => s
    case JArray(_) => "[...]"
    case JObject(_) => "{...}"
  }
}
