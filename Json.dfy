/** The values `json.loads` produces, as Python sees them after parsing. */
module Json {

  datatype Value =
    | Null                              // None
    | Bool(b: bool)                     // True / False
    | Int(i: int)                       // int, unbounded as in Python
    | Float(x: real)                    // a finite float, by its exact value
    | NonFinite                         // float('nan'), float('inf'), float('-inf')
    | Str(s: string)                    // str
    | Array(items: seq<Value>)          // list
    | Object(fields: map<string, Value>) // dict (key order is not modelled)

  /** `d.get(key)`: the stored value, or `None` when the key is absent. */
  function Get(fields: map<string, Value>, key: string): (v: Value)
    ensures key in fields ==> v == fields[key]
    ensures key !in fields ==> v == Null
  {
    if key in fields then fields[key] else Null
  }
}
