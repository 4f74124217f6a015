/** JavaScript values as far as the core inspects them: truthiness, `??`,
    `typeof x === "number"`, and property access on what `JSON.parse` returned. */
module JsValues {
  import opened Wrappers

  /** A JavaScript number. */
  datatype JsNumber = NaN | Finite(x: real) | Infinity(positive: bool)

  /** A JavaScript value; objects and arrays are `Obj` (the core only tests them for truthiness). */
  datatype JsValue = Undefined | Null | Bool(b: bool) | Num(n: JsNumber) | Str(s: string) | Obj

  /** JavaScript truthiness: `false`, `0`, `NaN`, `""`, `null` and `undefined` are falsy. */
  predicate Truthy(v: JsValue) {
    match v
    case Undefined => false
    case Null => false
    case Bool(b) => b
    case Num(n) => !n.NaN? && !(n.Finite? && n.x == 0.0)
    case Str(s) => s != []
    case Obj => true
  }

  /** `null` or `undefined`: the values `??` replaces. */
  predicate IsNullish(v: JsValue) {
    v.Undefined? || v.Null?
  }

  /** `v ?? d`. */
  function Coalesce(v: JsValue, d: JsValue): JsValue {
    if IsNullish(v) then d else v
  }

  /** `n > 0` for a number. */
  predicate IsPositive(n: JsNumber) {
    match n
    case NaN => false
    case Finite(x) => x > 0.0
    case Infinity(positive) => positive
  }

  /** The top-level value `JSON.parse` produced: `null`, an object with its own
      fields, or anything else (number, string, boolean, array), whose named
      properties read as `undefined`. */
  datatype JsonDoc = JNull | JObject(fields: map<string, JsValue>) | JOther

  /** Whether the text parsed as JSON. */
  datatype ParseOutcome = ParseFailed | Parsed(doc: JsonDoc)

  /** The message V8 gives the `TypeError` thrown by reading a property of `null`. */
  function NullPropertyMessage(name: string): string {
    "Cannot read properties of null (reading '" + name + "')"
  }

  /** `doc.name`: throws on `null`, `undefined` for an absent field. */
  function Property(doc: JsonDoc, name: string): Completion<JsValue> {
    match doc
    case JNull => Threw(NullPropertyMessage(name))
    case JObject(fields) => Returned(if name in fields then fields[name] else Undefined)
    case JOther => Returned(Undefined)
  }

  /** `doc?.name`: like `doc.name`, but `undefined` instead of throwing on `null`. */
  function OptionalProperty(doc: JsonDoc, name: string): JsValue {
    if doc.JNull? then Undefined else Property(doc, name).value
  }
}
