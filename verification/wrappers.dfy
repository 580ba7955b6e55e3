/** Small value wrappers shared by the modules of the tutoring model. */
module Wrappers {

  /** Python's `None` (or a dictionary key that is absent) versus a present value. */
  datatype Option<+T> = None | Some(value: T)

  /** The outcome of a step that may raise instead of returning. */
  datatype Result<+T> = Ok(value: T) | Err(error: Failure)

  /** The only exception the modelled code raises on its own: reading a list
      position that does not exist (`messages[-2]` on a one-element list). */
  datatype Failure = IndexError

  /** Python truthiness of an optional string: `None` and `""` are false. */
  predicate Truthy(s: Option<string>)
  {
    s.Some? && s.value != ""
  }
}
