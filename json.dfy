/**
 * Metadata values as they travel between the services in JSON: the records
 * kept in the vector store and returned to the frontend carry a map of such
 * values. Arrays and nested objects are not modelled.
 */
module Json {
  import opened Text

  /** A scalar JSON value. */
  datatype Value = Str(s: String) | Num(n: int) | Bool(b: bool) | Null

  /**
   * Truthiness of a value, which JavaScript (`if (v)`, `v || w`) and Python
   * (`if v`, `v or w`) agree on for scalars.
   */
  predicate Truthy(v: Value) {
    match v
    case Str(s) => s != ""
    case Num(n) => n != 0
    case Bool(b) => b
    case Null => false
  }

  type Metadata = map<String, Value>
}
