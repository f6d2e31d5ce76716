/** Option and Result values for lookups that may find nothing and steps that may fail. */
module Wrappers {

  datatype Option<+T> = None | Some(value: T)

  datatype Result<+T, +E> = Success(value: T) | Failure(error: E)

  /** An optional string that JavaScript reads as truthy: present and not empty. */
  predicate Present(s: Option<string>)
  {
    s.Some? && s.value != []
  }
}
