/** Small failure-carrying datatypes shared by the other modules. */
module Outcomes {

  /** A value that may be absent, as Python's `None`. */
  datatype Option<+T> = None | Some(value: T)

  /** Why an operation stopped early.
      `AssetUnavailable` is the `ValueError` that `randint(0, -1)` raises
      when a list it is asked to draw from is empty. */
  datatype Error = AssetUnavailable

  /** The result of an operation that can raise. */
  datatype Result<+T> = Ok(value: T) | Err(error: Error)
}
