/**
 * The dynamic values the Python code passes around.  Agent records, task
 * analyses and the registry document are Python dictionaries decoded from
 * JSON; they are modelled as maps from keys to a small JSON value type.
 */
module Values {

  datatype Option<T> = None | Some(value: T)

  /** The result of a Python call: it returns a value or raises an exception with a message. */
  datatype Outcome<T> = Returned(value: T) | Raised(message: string)

  /** A JSON scalar as decoded by `json.loads`: `null`, a boolean or a string. */
  datatype Value = Null | Bool(b: bool) | Str(s: string)

  /** A JSON object / Python dict with string keys. */
  type Dict = map<string, Value>

  /** `d.get(key)`: the stored value, or None when the key is absent. */
  function Get(d: Dict, key: string): Value
  {
    if key in d then d[key] else Null
  }

  /** `d.get(key, default)`. */
  function GetOr(d: Dict, key: string, default: Value): Value
  {
    if key in d then d[key] else default
  }

  /** Python truthiness of a value. */
  predicate Truthy(v: Value)
  {
    match v
    case Null => false
    case Bool(b) => b
    case Str(s) => s != ""
  }

  /** `str(v)`, which is what an f-string interpolates. */
  function Show(v: Value): string
  {
    match v
    case Null => "None"
    case Bool(b) => if b then "True" else "False"
    case Str(s) => s
  }

  /** The Python class name of a value, as it appears in an AttributeError message. */
  function TypeName(v: Value): string
  {
    match v
    case Null => "NoneType"
    case Bool(_) => "bool"
    case Str(_) => "str"
  }

  /** The message of the AttributeError raised by `obj.attr` on an object of type `typeName`. */
  function NoAttribute(typeName: string, attr: string): string
  {
    "'" + typeName + "' object has no attribute '" + attr + "'"
  }

  /** The message of `KeyError(key)`, as `str(e)` renders it. */
  function KeyErrorMessage(key: string): string
  {
    "'" + key + "'"
  }
}
