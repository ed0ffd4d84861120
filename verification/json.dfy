/** The value `JSON.parse` produces, and the two JavaScript operations the
    service applies to it: property access and truthiness. */
module Json {
  import opened Wrappers

  /** A parsed JSON value. Numbers are `real`: the model never does floating
      point arithmetic on them, it only compares and passes them through.
      Objects are maps, so a duplicate key in the text keeps one value, as
      `JSON.parse` keeps the last one. */
  datatype Json =
    | JNull
    | JBool(b: bool)
    | JNum(n: real)
    | JStr(s: string)
    | JArr(items: seq<Json>)
    | JObj(fields: map<string, Json>)

  /** JavaScript truthiness of a value that is present. JSON cannot produce
      `NaN`, so the only falsy number is zero. */
  predicate Truthy(j: Json)
  {
    match j
    case JNull => false
    case JBool(b) => b
    case JNum(n) => n != 0.0
    case JStr(s) => s != ""
    case JArr(_) => true
    case JObj(_) => true
  }

  /** Truthiness of a property read: an absent property is `undefined`,
      which is falsy. */
  predicate TruthyOpt(o: Option<Json>)
  {
    o.Some? && Truthy(o.value)
  }

  /** `j[key]` for a value `j` that is not `null`: only objects have the
      properties the service asks for; on a boolean, number, string or array
      the read yields `undefined`. */
  function Prop(j: Json, key: string): (r: Option<Json>)
    ensures r.Some? <==> j.JObj? && key in j.fields
    ensures r.Some? ==> r.value == j.fields[key]
  {
    if j.JObj? && key in j.fields then Some(j.fields[key]) else None
  }

  /** `typeof v === 'number'` for a property read. */
  predicate IsNumber(o: Option<Json>)
  {
    o.Some? && o.value.JNum?
  }
}
