/**
 * Loosely typed values as the timing API delivers them: a raw record maps field names to
 * untyped values, and a field that is not there reads as `undefined`.
 */
module JsValues {
  import opened Wrappers
  import opened JsText

  /** A JavaScript number: finite (an exact real), NaN, or an infinity. */
  datatype Number = Finite(value: real) | NaN | Infinity(negative: bool)

  /** An untyped field value; `JOther` stands for objects and arrays, which no coercion accepts. */
  datatype JValue =
    | JUndefined
    | JNull
    | JBool(b: bool)
    | JNum(n: Number)
    | JStr(s: string)
    | JOther

  /** One record of the timing API, keyed by field name. */
  type RawRecord = map<string, JValue>

  /** `record[key]`: a missing field is `undefined`. */
  function Field(r: RawRecord, key: string): JValue {
    if key in r then r[key] else JUndefined
  }

  /** `String(n)` for a number. */
  function NumberString(n: Number): string {
    match n
    case Finite(x) => NumberText(x)
    case NaN => "NaN"
    case Infinity(negative) => if negative then "-Infinity" else "Infinity"
  }

  /** `String(v)` for an untyped value (objects print as `[object Object]`). */
  function ValueString(v: JValue): string {
    match v
    case JUndefined => "undefined"
    case JNull => "null"
    case JBool(b) => if b then "true" else "false"
    case JNum(n) => NumberString(n)
    case JStr(s) => s
    case JOther => "[object Object]"
  }

  /** `Number(text)` as a JavaScript number: NaN when the text is not a decimal literal. */
  function ParseNumber(text: string): (n: Number)
    ensures n.NaN? || n.Finite?
  {
    match JsNumber(text)
    case Some(x) => Finite(x)
    case None => NaN
  }
}
