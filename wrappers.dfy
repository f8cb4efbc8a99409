/** Failure-aware return values used across the model: `Option` for Python's
    "value or None", `Result` for "value or raised exception". */
module Wrappers {

  datatype Option<+T> = None | Some(value: T)

  /** The Python exceptions the modelled code can raise on its own data. */
  datatype Error =
    | KeyError          // a missing dict key or CSV column
    | IndexError        // an index past the end of a list
    | ValueError        // float() of a non-numeric text, a failed tuple unpacking
    | TypeError         // arithmetic or float() on None
    | ZeroDivisionError // % or / by zero
    | NameError         // a local variable read before any assignment
    | FileNotFound      // a file the code opens does not exist

  datatype Result<+T> = Ok(value: T) | Err(error: Error)
}
