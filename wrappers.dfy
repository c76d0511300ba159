/** The `Option`, `Result` and `Outcome` datatypes used throughout the model:
    `Option` for values that may be absent, `Result` for operations that
    return an error value and `Outcome` for checks that pass or fail with a
    report. */
module Wrappers {

  datatype Option<+T> = None | Some(value: T)

  datatype Result<+T, +E> = Ok(value: T) | Err(error: E)

  datatype Outcome<+E> = Pass | Fail(error: E)
}
