/** Optional request fields and the JavaScript truthiness test the handlers apply to them. */
module Wrappers {

  /** A field of a request body that may be absent. */
  datatype Option<+T> = None | Some(value: T)

  /** A string field passes `!field` exactly when it is present and not the empty string. */
  predicate Present(field: Option<string>)
  {
    field.Some? && field.value != ""
  }
}
