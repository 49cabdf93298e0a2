/** JSON values as Python's json module decodes them, with the few Python operators the engine applies. */
module JsonValues {
  import opened Base

  datatype Json =
    | JNull
    | JBool(b: bool)
    | JInt(i: int)
    | JFloat(x: real)
    | JStr(s: string)
    | JArr(elements: seq<Json>)
    | JObj(fields: map<string, Json>)

  predicate IsContainer(j: Json) {
    j.JArr? || j.JObj?
  }

  /** Booleans, integers and floats compare as numbers in Python: `True == 1 == 1.0`. */
  function AsNumber(j: Json): Option<real> {
    match j
    case JBool(b) => Some(if b then 1.0 else 0.0)
    case JInt(i) => Some(i as real)
    case JFloat(x) => Some(x)
    case _ => None
  }

  /** `a == b` of Python when at least one side is a scalar. */
  predicate PyEquals(a: Json, b: Json) {
    if AsNumber(a).Some? && AsNumber(b).Some? then AsNumber(a) == AsNumber(b) else a == b
  }

  /** The truth value of a JSON value in a Python condition. */
  predicate Truthy(j: Json) {
    match j
    case JNull => false
    case JStr(s) => s != ""
    case JArr(elements) => elements != []
    case JObj(fields) => fields != map[]
    case _ => AsNumber(j) != Some(0.0)
  }

  /** Serialisation as the engine uses it. `show` is Python's `str`. */
  datatype Codec = Codec(loads: string -> Option<Json>, dumps: Json -> string, show: Json -> string)
}
