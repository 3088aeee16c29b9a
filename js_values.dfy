/** Values as the JavaScript front end sees them: optional or nullable
    properties and the falsy-defaulting `||` operator. */
module JsValues {

  datatype Option<+T> = None | Some(value: T)

  /** A value, or the message of the `Error` thrown instead of returning one. */
  datatype Result<+T> = Ok(value: T) | Err(message: string)

  /** A property of a loosely typed record: missing, explicitly `null`, or set. */
  datatype Nullable<+T> = Undefined | Null | Defined(value: T)

  /** `x || fallback` for a string property: "" , `null` and `undefined` are falsy. */
  function OrString(x: Nullable<string>, fallback: string): string
  {
    if x.Defined? && x.value != "" then x.value else fallback
  }

  /** `x || fallback` for a numeric property: 0, `null` and `undefined` are falsy. */
  function OrReal(x: Nullable<real>, fallback: real): real
  {
    if x.Defined? && x.value != 0.0 then x.value else fallback
  }

  /** `x || fallback` for an array property: arrays are truthy even when empty. */
  function OrSeq<T>(x: Nullable<seq<T>>, fallback: seq<T>): seq<T>
  {
    if x.Defined? then x.value else fallback
  }

  /** Truthiness of a nullable string, as in `profile?.phone_number && …`. */
  predicate TruthyString(x: Nullable<string>)
  {
    x.Defined? && x.value != ""
  }
}
