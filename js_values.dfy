/** The few JavaScript value distinctions the map widget depends on. */
module JsValues {

  /** `null`/`undefined` versus a present value. */
  datatype Option<+T> = None | Some(value: T)

  /** Whether a key is present in an options object (`"key" in options`),
      independently of the value it holds. */
  datatype Field<+T> = Absent | Given(value: T)

  /** A value read where a number is expected: a finite number, or anything else
      (`NaN`, an infinity, `null`, a non-number). `Number.isFinite` holds only of `Finite`. */
  datatype Num = Finite(value: real) | NotFinite

  /** JavaScript truthiness of an optional string: present and not empty. */
  predicate Truthy(s: Option<string>)
  {
    s.Some? && s.value != ""
  }
}
