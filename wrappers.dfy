/** Failure-carrying values used where the form's Python code would raise. */
module Wrappers {

  /** `None` stands for a lookup that raises (a missing dictionary key, a label
      that is not in an option list). */
  datatype Option<+T> = None | Some(value: T)

  datatype Result<+R, +E> = Ok(value: R) | Err(error: E)
}
