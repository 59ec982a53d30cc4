/** Values shared by every part of the model: Python's None-or-value, the exceptions the
    core can raise, the JSON-like values held in the session and in upstream payloads,
    datetimes, and the per-request session mapping. */
module Base {

  datatype Option<T> = None | Some(value: T)

  /** The exceptions the core raises or lets through, reduced to their kind. */
  datatype Error =
    | KeyError(key: string)   // `d[key]` on a dict without that key
    | TypeError               // an operation applied to a value of the wrong type
    | AttributeError          // `.get` on something that is not a dict
    | ValueError              // a date or time string the parser refuses
    | UpstreamError           // an upstream HTTP call that failed or returned a non-2xx status

  datatype Result<T> = Ok(value: T) | Err(error: Error) {
    predicate IsFailure() {
      Err?
    }

    function PropagateFailure<U>(): Result<U>
      requires Err?
    {
      Err(error)
    }

    function Extract(): T
      requires Ok?
    {
      value
    }
  }

  /** A JSON-like Python value (what `json.loads` and the session store hold). */
  datatype Value =
    | Null
    | Bool(b: bool)
    | Int(i: int)
    | Str(s: string)
    | List(items: seq<Value>)
    | Dict(fields: map<string, Value>)

  /** Python truthiness of a value. */
  predicate Truthy(v: Value) {
    match v
    case Null => false
    case Bool(b) => b
    case Int(i) => i != 0
    case Str(s) => s != ""
    case List(xs) => xs != []
    case Dict(m) => m != map[]
  }

  /** `d.get(key)`: the value, or None when the key is absent. */
  function Get(d: map<string, Value>, key: string): (v: Value)
    ensures key !in d ==> v == Null
  {
    if key in d then d[key] else Null
  }

  /** `v[key]` for a string key: only a dict can be subscripted that way. */
  function Subscript(v: Value, key: string): (r: Result<Value>)
    ensures r.Ok? <==> v.Dict? && key in v.fields
    ensures r.Ok? ==> r.value == v.fields[key]
    ensures v.Dict? && key !in v.fields ==> r == Err(KeyError(key))
    ensures !v.Dict? ==> r == Err(TypeError)
  {
    match v
    case Dict(m) => if key in m then Ok(m[key]) else Err(KeyError(key))
    case _ => Err(TypeError)
  }

  /** The integer a value stands for in arithmetic and comparisons (a Python bool is an int). */
  function AsInt(v: Value): Option<int> {
    match v
    case Int(i) => Some(i)
    case Bool(b) => Some(if b then 1 else 0)
    case _ => None
  }

  /** Whether a datetime carries a time zone (only UTC occurs in the core). */
  datatype Zone = Naive | Utc

  /** A Python datetime, as microseconds since the epoch (wall-clock time when naive). */
  datatype DateTime = DateTime(micros: int, zone: Zone)

  /** The mapping `request.session` of one request, read and written in place by the
      middleware and the handlers. */
  class Session {
    var entries: map<string, Value>

    constructor (initial: map<string, Value>)
      ensures entries == initial
    {
      entries := initial;
    }
  }
}
