/** The two failure-carrying types of the model: `Option` for the source's
    `None` / `.first()` results, `Result` for its raised exceptions. */
module Outcomes {
  datatype Option<+T> = None | Some(value: T)

  datatype Result<+T, +E> = Ok(value: T) | Err(error: E)
}
