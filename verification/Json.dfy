/** JSON values as serde_json holds them: objects are maps that iterate in key order. */
module Json {
  datatype Value =
    | Null
    | Bool(flag: bool)
    | Number(literal: string)
    | String(text: string)
    | Array(items: seq<Value>)
    | Object(fields: map<string, Value>)

  predicate IsContainer(j: Value) {
    j.Array? || j.Object?
  }

  /** Every key of every object in the value satisfies p. */
  ghost predicate AllKeys(j: Value, p: string -> bool) {
    match j
    case Object(fields) => forall k | k in fields :: p(k) && AllKeys(fields[k], p)
    case Array(items) => forall i | 0 <= i < |items| :: AllKeys(items[i], p)
    case _ => true
  }
}
