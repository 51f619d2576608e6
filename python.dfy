/**
 * The few Python values and behaviours the wallet scripts rely on:
 * calls that either return or raise, JSON documents as `json.load`
 * produces them, truthiness (`if not x`) and `dict.get`.
 */
module Python {

  datatype Option<+T> = None | Some(value: T)

  /** A value or an error, for operations whose error cases are named. */
  datatype Result<+T, +E> = Success(value: T) | Failure(error: E)

  /**
   * The outcome of a Python call that either returns a value or raises an
   * exception; `msg` is the exception's `str(e)`.
   */
  datatype Outcome<+T> = Ok(value: T) | Raised(msg: string)

  /**
   * A JSON value as `json.load` returns it: null, booleans, numbers, strings,
   * lists and dicts. Numbers are integers (see README, "Left out").
   */
  datatype Json =
    | JNull
    | JBool(b: bool)
    | JNum(n: int)
    | JStr(s: string)
    | JArr(items: seq<Json>)
    | JObj(fields: map<string, Json>)

  /** Python truthiness: what `if x` accepts and `if not x` rejects. */
  predicate Truthy(j: Json) {
    match j
    case JNull => false
    case JBool(b) => b
    case JNum(n) => n != 0
    case JStr(s) => s != ""
    case JArr(items) => items != []
    case JObj(fields) => fields != map[]
  }

  /** `type(j).__name__`, the name Python's error messages use. */
  function TypeName(j: Json): string {
    match j
    case JNull => "NoneType"
    case JBool(_) => "bool"
    case JNum(_) => "int"
    case JStr(_) => "str"
    case JArr(_) => "list"
    case JObj(_) => "dict"
  }

  /** `str(e)` of the AttributeError raised by `x.get(...)` on a value `x` that is not a dict. */
  function NoGetMessage(x: Json): string {
    "'" + TypeName(x) + "' object has no attribute 'get'"
  }

  /** The empty dict `{}`. */
  const EmptyObject: Json := JObj(map[])

  /**
   * `obj.get(key, default)`: the value stored under `key`, or `default`;
   * anything but a dict has no `get` and raises AttributeError.
   */
  function Get(obj: Json, key: string, default: Json): (r: Outcome<Json>)
    ensures r.Ok? <==> obj.JObj?
    ensures obj.JObj? ==> r.value == if key in obj.fields then obj.fields[key] else default
    ensures !obj.JObj? ==> r == Raised(NoGetMessage(obj))
  {
    match obj
    case JObj(fields) => Ok(if key in fields then fields[key] else default)
    case _ => Raised(NoGetMessage(obj))
  }

  /** Python's `a or b` on JSON values: the first operand if it is truthy. */
  function Or(a: Json, b: Json): (r: Json)
    ensures Truthy(a) ==> r == a
    ensures !Truthy(a) ==> r == b
  {
    if Truthy(a) then a else b
  }
}
