/** Dynamic values: what a Python script sees in its namespace, and what the
    JSON inputs and outputs carry. */
module Values {

  /** A naive `datetime`: the calendar date is kept as it is; the harness only
      ever rewrites the time-of-day fields. */
  datatype DateTime = DateTime(
    year: int, month: int, day: int,
    hour: int, minute: int, second: int, microsecond: int)

  /** A Python or JSON value. `Logger` is the harness's own `DecisionLogger`
      object; `Time` is a `datetime`. */
  datatype Value =
    | Null
    | Bool(b: bool)
    | Int(i: int)
    | Float(f: real)
    | Str(s: string)
    | List(items: seq<Value>)
    | Dict(entries: map<string, Value>)
    | Time(t: DateTime)
    | Logger

  /** A JSON object / Python `dict` with string keys. */
  type Object = map<string, Value>

  /** Python's `d.get(key, default)`. */
  function Get(d: Object, key: string, default: Value): (r: Value)
    ensures key in d ==> r == d[key]
    ensures key !in d ==> r == default
  {
    if key in d then d[key] else default
  }
}
