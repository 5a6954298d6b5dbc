// Outcomes of operations that can fail.  The dependency system signals
// failure by raising one of a handful of Python exceptions; the model
// returns them as values so every error path is visible in the contracts.
module Outcomes {

  datatype Option<T> = None | Some(value: T)

  /** The Python exception an operation raises. */
  datatype Error =
    | ValueError(message: string)
    | IndexError
    | KeyError(key: string)
    | FileNotFoundError(path: string)
    | AttributeError
    | TypeError

  datatype Result<T> = Ok(value: T) | Err(error: Error)
}
