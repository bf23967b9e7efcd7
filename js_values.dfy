/**
 * The small slice of JavaScript value semantics that the dashboard helpers
 * branch on: `null`/`undefined`, truthiness and the `String(value)` conversion.
 */
module JsValues {

  datatype Option<+T> = None | Some(value: T)

  /**
   * A JavaScript value as the helpers see it. A value that is neither a
   * string nor nullish (a number, a boolean, an object) is described only by
   * whether it is truthy and by the text `String(value)` gives for it.
   */
  datatype JsValue =
    | Undefined
    | Null
    | Str(s: string)
    | Other(truthy: bool, text: string)

  /** `value == null`: loose equality with null holds exactly for null and undefined. */
  predicate IsNullish(v: JsValue) {
    v.Undefined? || v.Null?
  }

  /** JavaScript truthiness: the empty string is falsy, every other string truthy. */
  predicate Truthy(v: JsValue) {
    match v
    case Undefined => false
    case Null => false
    case Str(s) => s != ""
    case Other(t, _) => t
  }

  /** `String(value)`, which is also what a template literal interpolates. */
  function ToJsString(v: JsValue): string {
    match v
    case Undefined => "undefined"
    case Null => "null"
    case Str(s) => s
    case Other(_, text) => text
  }

  /** Every nullish value is falsy, so a `!x` guard also catches what `x == null` catches. */
  lemma NullishIsFalsy(v: JsValue)
    ensures IsNullish(v) ==> !Truthy(v)
  {
  }
}
