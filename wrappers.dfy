/** Optional values, results, and the Python exceptions the modelled code raises. */
module Wrappers {

  datatype Option<+T> = None | Some(value: T)

  datatype Result<+T, +E> = Ok(value: T) | Err(error: E)

  /** The exceptions raised by the modelled code, by Python class name. */
  datatype PyError =
    | ValueError(message: string)
    | IndexError
    | KeyError(key: string)
    | FileNotFoundError(path: string)
    | ZeroDivisionError
    | ValidationError   // pydantic rejects a field of the wrong type

  datatype Unit = Unit
}
