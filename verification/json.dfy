/** A request body after JSON decoding, as the Python objects the decoder
    produces, together with the two pieces of Python object behaviour the
    contact handler observes: truthiness (`x or default`) and the text of the
    `AttributeError` raised when a method is looked up on the wrong type.
 */
module Json {

  /** `null`, `true`/`false`, integers, other numbers, strings, arrays and
      objects become `None`, `bool`, `int`, `float`, `str`, `list` and `dict`. */
  datatype JsonValue =
    | JNull
    | JBool(b: bool)
    | JInt(i: int)
    | JFloat(f: real)
    | JString(str: string)
    | JArray(items: seq<JsonValue>)
    | JObject(fields: map<string, JsonValue>)

  /** Python truthiness: `None`, `False`, zero, and empty strings, lists and
      dicts are falsy; everything else is truthy. */
  predicate Truthy(v: JsonValue) {
    match v
    case JNull => false
    case JBool(b) => b
    case JInt(i) => i != 0
    case JFloat(f) => f != 0.0
    case JString(s) => s != ""
    case JArray(a) => a != []
    case JObject(m) => |m| != 0
  }

  /** `type(v).__name__`. */
  function TypeName(v: JsonValue): string {
    match v
    case JNull => "NoneType"
    case JBool(_) => "bool"
    case JInt(_) => "int"
    case JFloat(_) => "float"
    case JString(_) => "str"
    case JArray(_) => "list"
    case JObject(_) => "dict"
  }

  /** `str()` of the `AttributeError` raised by `v.attr` when `v`'s type has
      no attribute `attr`. */
  function NoAttribute(v: JsonValue, attr: string): string {
    "'" + TypeName(v) + "' object has no attribute '" + attr + "'"
  }
}
