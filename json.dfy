/** A value produced by `JSON.parse`, and the two JavaScript operations the
    upload code applies to it: property access and the `??` operator. */
module Json {
  import opened Wrappers

  /** Numbers are kept as exact reals; nothing here does arithmetic on them. */
  datatype Json =
    | JNull
    | JBool(b: bool)
    | JNumber(n: real)
    | JString(s: string)
    | JArray(items: seq<Json>)
    | JObject(members: map<string, Json>)

  /** Reading a property of `undefined` or `null` throws a TypeError. */
  datatype AccessError = ReadOfNullish

  /** The `undefined`-or-value view of a JavaScript expression. */
  type Value = Option<Json>

  /** `v.key`: `None` is `undefined`. Only an object has the keys read here;
      on any other non-nullish value the read gives `undefined`. */
  function Member(v: Value, key: string): (r: Result<Value, AccessError>)
    ensures r.Failure? <==> v == None || v == Some(JNull)
    ensures r.Success? && r.value.Some? ==> v.value.JObject? && key in v.value.members && r.value.value == v.value.members[key]
    ensures r.Success? && v.value.JObject? && key in v.value.members ==> r.value.Some?
  {
    match v
    case None => Failure(ReadOfNullish)
    case Some(JNull) => Failure(ReadOfNullish)
    case Some(JObject(m)) => Success(if key in m then Some(m[key]) else None)
    case Some(_) => Success(None)
  }

  /** `v ?? fallback`: the fallback replaces `undefined` and `null` alike. */
  function Coalesce(v: Value, fallback: Json): (r: Json)
    ensures v == None || v == Some(JNull) ==> r == fallback
    ensures v != None && v != Some(JNull) ==> r == v.value
  {
    match v
    case None => fallback
    case Some(JNull) => fallback
    case Some(x) => x
  }

  /** The value an object holds for `key` when it is neither missing nor `null`. */
  function Supplied(o: Json, key: string): Value
  {
    if o.JObject? && key in o.members && o.members[key] != JNull then Some(o.members[key]) else None
  }
}
