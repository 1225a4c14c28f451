/** Optional values, and the truthiness test the chat script applies to them. */
module Wrappers {

  /** A value that may be absent (Python's `None`). */
  datatype Option<+T> = None | Some(value: T)

  /** Python truthiness of an optional string: `None` and `""` are false,
      every other string (whitespace included) is true. */
  predicate Truthy(x: Option<string>) {
    x.Some? && x.value != ""
  }
}
