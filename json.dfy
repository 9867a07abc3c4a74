/** Decoded JSON values and the C# casts the client applies to them. */
module Json {
  import opened Nullable
  import opened Errors

  /** A value as the JSON library hands it over: `null`, a boolean, a number,
      a string, an object (`JsonObject`) or an array (`JsonArray`). */
  datatype Json =
    | JNull
    | JBool(b: bool)
    | JInt(i: int)
    | JString(s: string)
    | JObject(fields: map<string, Json>)
    | JArray(items: seq<Json>)

  type Object = map<string, Json>

  /** `obj[key]` on a possibly-null `JsonObject`. */
  function Member(obj: Option<Object>, key: string): (r: Outcome<Json>)
    ensures r.Returned? <==> obj.Some? && key in obj.value
    ensures r.Returned? ==> r.value == obj.value[key]
  {
    match obj
    case None => Threw(Runtime(NullReference))
    case Some(m) => if key in m then Returned(m[key]) else Threw(Runtime(KeyNotFound(key)))
  }

  /** `(string)v`: a string or `null` passes, anything else is a bad cast. */
  function AsString(v: Json): (r: Outcome<Option<string>>)
    ensures r.Returned? <==> IsNullableString(v)
    ensures r.Returned? ==> r.value == TextOf(v)
    ensures r.Threw? ==> r == Threw(Runtime(InvalidCast))
  {
    match v
    case JString(s) => Returned(Some(s))
    case JNull => Returned(None)
    case _ => Threw(Runtime(InvalidCast))
  }

  /** `(bool)v`: unboxing `null` fails as well as a wrong type. */
  function AsBool(v: Json): (r: Outcome<bool>)
    ensures r.Returned? <==> v.JBool?
    ensures r.Returned? ==> r.value == v.b
    ensures v.JNull? ==> r == Threw(Runtime(NullReference))
    ensures !v.JBool? && !v.JNull? ==> r == Threw(Runtime(InvalidCast))
  {
    match v
    case JBool(b) => Returned(b)
    case JNull => Threw(Runtime(NullReference))
    case _ => Threw(Runtime(InvalidCast))
  }

  /** `(int)v`: unboxing `null` fails as well as a wrong type. */
  function AsInt(v: Json): (r: Outcome<int>)
    ensures r.Returned? <==> v.JInt?
    ensures r.Returned? ==> r.value == v.i
    ensures v.JNull? ==> r == Threw(Runtime(NullReference))
    ensures !v.JInt? && !v.JNull? ==> r == Threw(Runtime(InvalidCast))
  {
    match v
    case JInt(i) => Returned(i)
    case JNull => Threw(Runtime(NullReference))
    case _ => Threw(Runtime(InvalidCast))
  }

  /** `(JsonObject)v`: an object or `null` passes. */
  function AsObject(v: Json): (r: Outcome<Option<Object>>)
    ensures r.Returned? <==> v.JObject? || v.JNull?
    ensures r.Returned? ==> (r.value.Some? <==> v.JObject?)
    ensures v.JObject? ==> r == Returned(Some(v.fields))
    ensures r.Threw? ==> r == Threw(Runtime(InvalidCast))
  {
    match v
    case JObject(m) => Returned(Some(m))
    case JNull => Returned(None)
    case _ => Threw(Runtime(InvalidCast))
  }

  /** `(JsonArray)v`: an array or `null` passes. */
  function AsArray(v: Json): (r: Outcome<Option<seq<Json>>>)
    ensures r.Returned? <==> v.JArray? || v.JNull?
    ensures r.Returned? ==> (r.value.Some? <==> v.JArray?)
    ensures v.JArray? ==> r == Returned(Some(v.items))
    ensures r.Threw? ==> r == Threw(Runtime(InvalidCast))
  {
    match v
    case JArray(a) => Returned(Some(a))
    case JNull => Returned(None)
    case _ => Threw(Runtime(InvalidCast))
  }

  /** A value the `(string)` cast accepts. */
  predicate IsNullableString(v: Json)
  {
    v.JString? || v.JNull?
  }

  /** The C# string a value accepted by `(string)` becomes. */
  function TextOf(v: Json): Option<string>
    requires IsNullableString(v)
  {
    if v.JString? then Some(v.s) else None
  }
}
