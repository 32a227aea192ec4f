/** Values as the TypeScript sources see them: optional values, the
    undefined/null/defined trichotomy, the `??` operator and results that
    carry a business error instead of throwing. */
module JsValues {

  datatype Option<+T> = None | Some(value: T)

  /** A TypeScript value of type `T | null | undefined`. */
  datatype JsOpt<+T> = Undefined | Null | Defined(value: T)
  {
    /** `x == null` in JavaScript: true for both undefined and null. */
    predicate IsNullish() {
      !Defined?
    }
  }

  /** The nullish-coalescing operator `x ?? fallback`. */
  function Coalesce<T>(x: JsOpt<T>, fallback: JsOpt<T>): JsOpt<T> {
    if x.IsNullish() then fallback else x
  }

  /** A nullable column read from the database, as a TypeScript value. */
  function FromNullable<T>(x: Option<T>): JsOpt<T> {
    match x
    case None => Null
    case Some(v) => Defined(v)
  }

  /** Truthiness of a `string | null | undefined`: the empty string is falsy. */
  predicate IsTruthyString(s: JsOpt<string>) {
    s.Defined? && |s.value| > 0
  }

  /** An operation that either returns a value or throws a business exception. */
  datatype Result<+T, +E> = Ok(value: T) | Err(error: E)
}
