/**
 * The JSON value tree of the nlohmann library, as far as the client uses it.
 * Objects are `std::map`s: keys are unique and unordered for our purposes.
 */
module Json {
  import opened Base

  datatype Json =
    | JNull
    | JBool(b: bool)
    | JInt(i: int)
    | JString(s: string)
    | JArray(items: seq<Json>)
    | JObject(fields: map<string, Json>)

  /** `json.find(key)`: the member stored under `key`, when `j` is an object that has one. */
  function Find(j: Json, key: string): (r: Option<Json>)
    ensures r.Some? <==> j.JObject? && key in j.fields
    ensures r.Some? ==> r.value == j.fields[key]
  {
    if j.JObject? && key in j.fields then Some(j.fields[key]) else None
  }

  /** `j[key]` on an object or null: the member, or a fresh null. */
  function Child(j: Json, key: string): Json {
    if j.JObject? && key in j.fields then j.fields[key] else JNull
  }

  /**
   * `j[key]` on a non-const value, as a read: an object yields its member, or
   * the null it inserts when there is none; null first turns into an empty
   * object; any other kind throws a type error.
   */
  function Member(j: Json, key: string): (r: Result<Json>)
    ensures r.Err? <==> !(j.JObject? || j.JNull?)
    ensures r.Ok? && j.JObject? && key in j.fields ==> r.value == j.fields[key]
    ensures r.Ok? && !(j.JObject? && key in j.fields) ==> r.value == JNull
  {
    if j.JObject? then Ok(Child(j, key))
    else if j.JNull? then Ok(JNull)
    else Err(TypeError)
  }

  /** `get<bool>()`: only a boolean converts. */
  function AsBool(v: Json): (r: Result<bool>)
    ensures r.Ok? <==> v.JBool?
    ensures r.Ok? ==> r.value == v.b
  {
    if v.JBool? then Ok(v.b) else Err(TypeError)
  }

  /** `get<std::string>()`: only a string converts. */
  function AsString(v: Json): (r: Result<string>)
    ensures r.Ok? <==> v.JString?
    ensures r.Ok? ==> r.value == v.s
  {
    if v.JString? then Ok(v.s) else Err(TypeError)
  }

  /**
   * `get<N>()` for an integer type `N`, before the narrowing cast: a number
   * converts as itself and a boolean as 0 or 1; anything else is a type error.
   */
  function AsInt(v: Json): (r: Result<int>)
    ensures r.Ok? <==> v.JInt? || v.JBool?
    ensures r.Ok? && v.JInt? ==> r.value == v.i
    ensures r.Ok? && v.JBool? ==> r.value == if v.b then 1 else 0
  {
    match v
    case JInt(i) => Ok(i)
    case JBool(b) => Ok(if b then 1 else 0)
    case _ => Err(TypeError)
  }

  function GetBool(j: Json, key: string): Result<bool> {
    if Member(j, key).Err? then Err(TypeError) else AsBool(Member(j, key).value)
  }

  function GetString(j: Json, key: string): Result<string> {
    if Member(j, key).Err? then Err(TypeError) else AsString(Member(j, key).value)
  }

  function GetInt(j: Json, key: string): Result<int> {
    if Member(j, key).Err? then Err(TypeError) else AsInt(Member(j, key).value)
  }

  /** Where `j[k0][k1]...[kn] = v` can be carried out: every level is an object or null (else the library throws). */
  predicate Assignable(j: Json, path: seq<string>)
    decreases |path|
  {
    |path| == 0 || ((j.JObject? || j.JNull?) && Assignable(Child(j, path[0]), path[1..]))
  }

  /** `j[k0][k1]...[kn] = v`: missing levels are created as objects, existing members kept. */
  function Assign(j: Json, path: seq<string>, v: Json): (r: Json)
    requires Assignable(j, path)
    ensures |path| > 0 ==> r.JObject? && path[0] in r.fields
    ensures |path| > 0 && j.JObject? ==>
      forall k :: k in j.fields && k != path[0] ==> k in r.fields && r.fields[k] == j.fields[k]
    decreases |path|
  {
    if |path| == 0 then v
    else
      var fields := if j.JObject? then j.fields else map[];
      JObject(fields[path[0] := Assign(Child(j, path[0]), path[1..], v)])
  }

  /** The value reached by following `path` through nested objects, if there is one. */
  function Lookup(j: Json, path: seq<string>): Option<Json>
    decreases |path|
  {
    if |path| == 0 then Some(j)
    else
      match Find(j, path[0])
      case None => None
      case Some(c) => Lookup(c, path[1..])
  }

  /** One step of a lookup into an object. */
  lemma LookupMember(fields: map<string, Json>, key: string, rest: seq<string>)
    ensures Lookup(JObject(fields), [key] + rest) == if key in fields then Lookup(fields[key], rest) else None
  {
    assert ([key] + rest)[0] == key && ([key] + rest)[1..] == rest;
  }

  /** After `j[path] = v`, following `path` finds `v`. */
  lemma {:induction false} LookupAssign(j: Json, path: seq<string>, v: Json)
    requires Assignable(j, path)
    ensures Lookup(Assign(j, path, v), path) == Some(v)
    decreases |path|
  {
    if |path| > 0 {
      LookupAssign(Child(j, path[0]), path[1..], v);
    }
  }
}
