/** Values that `json.load` can produce, and Python's truthiness of them. */
module JsonValue {

  datatype Json =
    | JNull
    | JBool(b: bool)
    | JNum(n: real)
    | JStr(s: string)
    | JArr(items: seq<Json>)
    | JObj(fields: map<string, Json>)

  /** `bool(v)` in Python: None, False, 0, "", [] and {} are false. */
  predicate Truthy(j: Json) {
    match j
    case JNull => false
    case JBool(b) => b
    case JNum(n) => n != 0.0
    case JStr(s) => s != ""
    case JArr(items) => items != []
    case JObj(fields) => fields != map[]
  }

  /** `d.get(key)` on a dictionary: the value, or None. */
  function Lookup(fields: map<string, Json>, key: string): Json {
    if key in fields then fields[key] else JNull
  }

  /** `d.get(key, default)`. */
  function Get(fields: map<string, Json>, key: string, default: Json): Json {
    if key in fields then fields[key] else default
  }

  /** The key is absent or holds a string: what `d.get(key, "")` needs to be a `str`. */
  predicate TextOrAbsent(fields: map<string, Json>, key: string) {
    key in fields ==> fields[key].JStr?
  }

  /** `d.get(key, default)` read as a string; a non-string value reads as "". */
  function TextField(fields: map<string, Json>, key: string, default: string): string {
    if key !in fields then default
    else if fields[key].JStr? then fields[key].s
    else ""
  }
}
